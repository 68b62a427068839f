# tmanagement job board: a Dafny model of its admin and job core

tmanagement is a multi-company job board. Each company has admins. The
admins sign in with HTTP Basic credentials and then publish jobs and
review the applications sent to them. Visitors list a company's published
jobs and send applications with a résumé. The repository holds two
implementations of the admin side, which disagree in places:

- the older single-file router `src/routes/admin.js`;
- the layered backend: `backend/src/middleware/auth.js`,
  `controllers/adminController.js`, `models/job.js` and
  `models/application.js`, mounted by `backend/src/routes/admin.js`.

The public routes `backend/src/routes/jobs.js` and
`backend/src/routes/applications.js` belong to the backend. The model
keeps the two admin implementations apart, each in its own module. Both
write the same four PostgreSQL tables.

| file | module | what it holds |
|---|---|---|
| `values.dfy` | `Values` | JSON body values, JavaScript truthiness, the error codes, `Result`, and the library calls (bcrypt, base64) passed in as `Primitives` |
| `text.dfy` | `Text` | the string operations both runtimes use: `trim`, `split`, `toLowerCase`, the `[^a-z0-9]+` → `-` replacement, decimal rendering and parsing |
| `credentials.dfy` | `Credentials` | reading the `Authorization` header into an optional username and a password |
| `query.dfy` | `Query` | table scans: `WHERE`, `ORDER BY … DESC`, `LIMIT 1` |
| `store.dfy` | `Store` | the rows, how JSON values bind to columns, and the `Database` class holding the four tables and their key sequences |
| `legacy_router.dfy` | `LegacyRouter` | `src/routes/admin.js` |
| `backend_auth.dfy` | `BackendAuth` | `backend/src/middleware/auth.js` with the admin lookups of `models/admin.js` |
| `job_model.dfy` | `JobModel` | `backend/src/models/job.js` |
| `application_model.dfy` | `ApplicationModel` | `backend/src/models/application.js` |
| `admin_controller.dfy` | `AdminController` | `backend/src/controllers/adminController.js` behind the middleware |
| `public_jobs.dfy` | `PublicJobs` | `backend/src/routes/jobs.js` |
| `application_routes.dfy` | `ApplicationRoutes` | `backend/src/routes/applications.js` |

Handlers that write to the database are module-level methods that take a
`Store.Database` argument and modify it. A two-state predicate next to
each handler states its outcome: the reply and the whole new state of the
tables. The routers' `Served` predicates reuse these. Every handler keeps
`Valid()`: foreign keys hold, slugs and usernames are unique, and every
key is below the next value of its sequence. Read-only handlers and
queries are functions. Each one states what it selects and how the result
is ordered.

Modelling conventions:

- A SQL statement without `ORDER BY`, and the ties of an `ORDER BY`,
  return rows in ascending key order. PostgreSQL promises no order here,
  so this is one order it may produce. `LIMIT 1` and `rows[0]` therefore
  pick the least matching key.
- A body key that is absent stands for `undefined`. `null`, `undefined`
  and `false` bind as SQL NULL or false, as node-postgres binds them.
- A route parameter is always a string. When PostgreSQL cannot read it as
  an integer, the query throws. The handler's `catch` then answers
  DB_ERROR in the older router and SERVER_ERROR in the backend.

Where the two admin implementations part ways, or the code does something
easy to misread, the model follows the code:

- An unknown username is INVALID_CREDENTIALS in the backend
  (`backend/src/middleware/auth.js:30-35`). The older router instead falls
  through to the legacy secret (`src/routes/admin.js:43`).
- A caller with only the legacy secret has no company in the older router
  (`src/routes/admin.js:57-58`). The backend middleware resolves it to the
  first admin of company 1, and answers CONFIG_ERROR when there is none
  (`backend/src/middleware/auth.js:62-69`).
- Slugs:
  - the older router sets `<base>-<key>` only at creation
    (`src/routes/admin.js:174-183`), and its PATCH never touches the slug;
  - the backend's `create` and `update` slugs have no key suffix
    (`backend/src/models/job.js:53`, `:73-76`);
  - a title with no letter or digit gives an empty base, so the older
    router's slug is `-<key>` (`src/routes/admin.js:174-182`).
- No handler checks a job's status. The older router accepts only three
  application statuses (`src/routes/admin.js:99`).
- The older router's application status PATCH checks no ownership
  (`src/routes/admin.js:94-135`).
- A reused username is USER_EXISTS in the older router
  (`src/routes/admin.js:206-209`).
- The older router creates a job and sets its slug in two statements, with
  no transaction (`src/routes/admin.js:176-183`). Requests are modelled one
  at a time, so no request sees the window between them.

## Model

| member | source | states |
|---|---|---|
| Text.Trim | src/routes/admin.js:18 | the result is `s` with leading and trailing JavaScript whitespace removed, and no whitespace at either end |
| Text.Split | src/routes/admin.js:25 | the pieces hold no separator and join back to the input |
| Text.SplitJoin | src/routes/admin.js:25-27 | splitting a join of separator-free pieces gives back the pieces |
| Text.SplitCons | backend/src/middleware/auth.js:21-23 | splitting peels off the piece before the first separator |
| Text.Lower | src/routes/admin.js:174 | `toLowerCase` maps each character on its own and keeps the length |
| Text.CollapseRuns | backend/src/models/job.js:75 | `replace(/[^a-z0-9]+/g, '-')` leaves only `[a-z0-9]` and `-`; its result is empty exactly when the input is; it starts and ends with a dash exactly when the input starts or ends outside `[a-z0-9]` |
| Text.CollapseRunsKeepsSlugChars | backend/src/models/job.js:75 | the replacement keeps every `[a-z0-9]` character, in order |
| Text.CollapseRunsNoDoubleDash | backend/src/models/job.js:75 | the replacement never leaves two dashes in a row |
| Text.CollapseRunsSlugChar | backend/src/models/job.js:75 | a single `[a-z0-9]` character is left as it is |
| Text.CollapseRunsOfRun | backend/src/models/job.js:75 | a non-empty run of characters outside `[a-z0-9]` becomes one dash |
| Text.RunLengthAppend | backend/src/models/job.js:75 | the run at the head of `x + y` stops inside `x`, or takes all of `x` and the head run of `y` |
| Text.CollapseRunsAppend | backend/src/models/job.js:75 | the replacement of `x + y` is the replacement of `x` followed by that of `y` whenever the cut is next to a `[a-z0-9]` character, so no run crosses it |
| Text.CollapseRunsJoinRuns | backend/src/models/job.js:75 | when a run ends `x` and another starts `y`, the two join into one run and give one dash, not two |
| Text.CollapseRunsIsScan | backend/src/models/job.js:75 | the replacement equals `ScanRuns`, the reading one character at a time that copies `[a-z0-9]` and writes one dash for the first character of each run |
| Text.ParseDecimal | backend/src/routes/jobs.js:62 | a text is read as an integer exactly when it is a non-empty string of digits, and then its value is `DigitsValue`, the base-ten value of the digits: ten times the value of all but the last digit, plus the last |
| Text.DecimalRoundTrip | src/routes/admin.js:182 | reading back the decimal form of a key gives the key |
| Text.DigitsValueLeadingZero | backend/src/routes/jobs.js:62 | a leading zero does not change the value of a digit string |
| Text.ParseZeroPrefix | backend/src/routes/jobs.js:62 | one leading zero in front of a decimal text reads back the same integer |
| Text.ParseLeadingZeros | backend/src/routes/jobs.js:62 | any number of leading zeros (`Zeros(n)`) in front of a decimal text read back the same integer |
| Text.LastIndexOfBefore | backend/src/routes/applications.js:23 | the last separator of `b + [c] + d`, where `d` has none, is the one after `b` |
| Credentials.Token | src/routes/admin.js:18 | without a space the token is empty; otherwise it is the trimmed second word, whatever the scheme word |
| Credentials.TokenAfterScheme | src/routes/admin.js:18 | for every scheme word, the token of `scheme word…` is the trimmed word |
| Credentials.Parse | src/routes/admin.js:21-28 | without a colon the whole text is the password and there is no username; otherwise username (empty becomes absent), a colon and the password make up the text, and the username holds no colon |
| Credentials.ParseNamed | backend/src/middleware/auth.js:20-24 | `username:password` parses back to both, whatever colons the password holds |
| Credentials.ParseUnnamed | src/routes/admin.js:26 | `:password` has no username and keeps the whole password |
| Store.TextValue | src/routes/admin.js:177-179 | a text column holds NULL exactly for `null`, a string as itself, a number in decimal and a boolean as the text `true` or `false` |
| Store.BoolValue | src/routes/admin.js:147 | a boolean column accepts only booleans, as themselves, and `null`, as NULL |
| Store.IntValue | src/routes/admin.js:169 | an integer parameter reads numbers as themselves and strings only when they are decimal digits, as the value `ParseDecimal` gives them |
| Store.IdParam | backend/src/routes/jobs.js:62 | a route key is an integer exactly when it is decimal digits, and is then the value `ParseDecimal` reads, never negative |
| Store.IdParamLeadingZeros | backend/src/routes/jobs.js:62 | a route key with leading zeros names the same row as without them |
| Store.Lookup | backend/src/routes/jobs.js:62 | `WHERE key = n` finds a row exactly when `n` is a stored key, and that row |
| Store.Database.InsertCompany | src/routes/admin.js:212 | a taken slug is a unique violation that changes nothing; otherwise the row is stored under the next key and only the company sequence moves |
| Store.Database.InsertAdmin | backend/src/models/admin.js:33-42 | a taken username is a unique violation and an unknown company a foreign-key violation, both changing nothing; otherwise the row is stored under the next key |
| Store.Database.InsertJob | src/routes/admin.js:176-180 | a job of an unknown company is a foreign-key violation that changes nothing; otherwise the row is stored under the next key |
| Store.Database.InsertApplication | backend/src/routes/applications.js:69-72 | an application to an unknown job is a foreign-key violation that changes nothing; otherwise the row is stored under the next key |
| Store.Database.SetJob | src/routes/admin.js:183 | the row replaces the one under its key; no other table and no sequence changes |
| Store.Database.SetApplication | src/routes/admin.js:109-112 | the row replaces the one under its key; no other table and no sequence changes |
| Store.Database.SetCompany | src/routes/admin.js:262-263 | the row replaces the one under its key; no other table and no sequence changes |
| Query.Select | src/routes/admin.js:32 | the scan yields, in ascending order, exactly the keys whose rows satisfy the filter |
| Query.SingleKey | src/routes/admin.js:33-34 | a scan that can only find one key, and finds it, has exactly one row |
| Query.FirstIsLeast | backend/src/routes/jobs.js:45 | `LIMIT 1` on an ascending scan gives the least key |
| Query.SortDesc | backend/src/models/job.js:16 | `ORDER BY … DESC` is sorted descending and is a permutation of its input |
| Query.SelectOrdered | backend/src/models/job.js:11-18 | each selected key appears once; the selection holds exactly the keys whose rows pass the filter, sorted descending by the sort column |
| Query.PermutationOfDistinct | backend/src/models/job.js:16 | a reordering of distinct keys holds the same keys, each once |
| Query.Rows | backend/src/models/job.js:19 | `result.rows` holds the rows under the selected keys, in their order |
| LegacyRouter.AdminsNamed | src/routes/admin.js:32 | exactly the admins with that username, in ascending key order |
| LegacyRouter.Authenticate | src/routes/admin.js:17-62 | a scoped caller is a stored admin whose username was given and whose hash matched; an unscoped caller matched the env hash; SERVER_CONFIG only when the env hash is unset or empty; every other failure is AUTH_FAILED |
| LegacyRouter.AuthKnownUser | src/routes/admin.js:31-42 | a username held by one admin is decided by that admin's hash alone: a match gives that admin's company, a mismatch AUTH_FAILED with no fallback |
| LegacyRouter.AuthFallback | src/routes/admin.js:43-58 | with no username, or a username no admin has, only the env hash decides: unset is SERVER_CONFIG, a mismatch AUTH_FAILED, a match an unscoped caller |
| LegacyRouter.RegisteredAdminAuthenticates | src/routes/admin.js:216-217 | an admin created with a hash of its password signs in with `username:password` as that admin |
| LegacyRouter.SlugBaseShape | src/routes/admin.js:174 | the slug base is `ScanRuns` of the lower-cased title with its leading and trailing dash removed: it holds only `[a-z0-9]` and single dashes, does not start or end with a dash, and keeps every letter and digit of the lower-cased title in order |
| LegacyRouter.SlugBaseExample | src/routes/admin.js:174 | the title `A b` has the slug base `a-b`: the capital is lowered and the space becomes one dash |
| LegacyRouter.StripDashesShape | src/routes/admin.js:174 | stripping one dash at each end keeps the alphabet, the single dashes and the letters and digits |
| LegacyRouter.JobSlugKey | src/routes/admin.js:182 | the job key is read back from the digits after the slug's last dash |
| LegacyRouter.JobSlugsDistinct | src/routes/admin.js:182 | jobs with different keys never share a slug, whatever their titles |
| LegacyRouter.Assignments | src/routes/admin.js:304-315 | each SET entry is an allowed key the body has, with the body's value, numbered from 1 |
| LegacyRouter.AssignmentsComplete | src/routes/admin.js:309-315 | no allowed key that the body has is missed |
| LegacyRouter.CollectAssignments | src/routes/admin.js:307-315 | the `for` loop builds exactly `Assignments`, and `idx` ends one past the last placeholder, where the row key is bound |
| LegacyRouter.NoAssignments | src/routes/admin.js:317-319 | the SET list is empty exactly when the body names none of the allowed keys |
| LegacyRouter.SettingsPatch | src/routes/admin.js:249-263 | the settings UPDATE sets exactly the name, logo_url and primary_color the body names, to the body's values |
| LegacyRouter.ApplyJobColumns | src/routes/admin.js:322 | column by column, an UPDATE built from `Assignments` writes the body's value to each allowed column the body names and keeps every other column |
| LegacyRouter.ApplyJobText | src/routes/admin.js:322 | a text column ends with the body's value when it is allowed and named, else keeps its value |
| LegacyRouter.ApplyJobActive | src/routes/admin.js:322 | `is_active` ends with the body's boolean when it is allowed and named, else keeps its value |
| LegacyRouter.ApplyJobKeeps | src/routes/admin.js:322 | no SET list changes the key, company, salary range, posting date or slug |
| LegacyRouter.JobPatch | src/routes/admin.js:304-323 | the job UPDATE sets exactly the allowed columns the body names, to the body's values |
| LegacyRouter.VisibleApplications | src/routes/admin.js:67-86 | a scoped caller sees exactly the applications to its company's jobs and any other caller all applications with a job, each once, latest first |
| LegacyRouter.VisibleJobs | src/routes/admin.js:272-280 | a scoped caller sees exactly its company's jobs and any other caller every job, each once, latest first |
| LegacyRouter.Settings | src/routes/admin.js:227-236 | a caller without a company gets no company; otherwise its company, or NOT_FOUND when that company is gone |
| LegacyRouter.UpdateApplicationStatus | src/routes/admin.js:94-135 | its outcome is `StatusSet`: only new, reviewed and rejected pass, otherwise INVALID_STATUS; a key that is not an integer is DB_ERROR and an unknown one NOT_FOUND; otherwise only that row's status changes, with no ownership check; every refusal leaves the tables unchanged |
| LegacyRouter.JobCompany | src/routes/admin.js:160-171 | a scoped caller's own company wins over the body; otherwise the body's `company_id` must be truthy (MISSING_COMPANY) and name a company (INVALID_COMPANY) |
| LegacyRouter.JobDraft | src/routes/admin.js:140-148 | the inserted row carries the title and the body's columns, NULL for absent ones, `is_active` true when absent, and status draft; nothing is inserted for a non-string title or a non-boolean `is_active` |
| LegacyRouter.InsertWithSlug | src/routes/admin.js:176-183 | the INSERT and the slug UPDATE store the row under the next key with slug `<base>-<key>`, or fail on an unknown company and change nothing |
| LegacyRouter.SetSlug | src/routes/admin.js:182-183 | the UPDATE replaces the stored row by one whose slug is `<base>-<key>`, nothing else changing |
| LegacyRouter.CreateJob | src/routes/admin.js:138-195 | its outcome is `JobCreated`: VALIDATION_ERROR unless title and description are truthy; then the company's error; DB_ERROR for a title that is not a string, an `is_active` that is not a boolean, or a company that is gone; on success exactly one new row under a fresh key, built from the body, with the slug `<base>-<key>`; every refusal leaves the tables unchanged |
| LegacyRouter.RegisterCompany | src/routes/admin.js:198-224 | its outcome is `CompanyRegistered`: VALIDATION_ERROR or USER_EXISTS change nothing; otherwise a new company is inserted and then an admin bound to it with the hashed password; a password that cannot be hashed is DB_ERROR and leaves the company behind |
| LegacyRouter.UpdateSettings | src/routes/admin.js:244-269 | its outcome is `SettingsSaved`: NO_COMPANY for a caller without a company and NO_FIELDS when nothing allowed is named, both changing nothing; otherwise only that company's named columns change |
| LegacyRouter.JobGate | src/routes/admin.js:295-303 | callers without a company skip the check; a scoped caller gets NOT_FOUND for a missing job before FORBIDDEN for another company's job, and passes only for its own |
| LegacyRouter.UpdateJob | src/routes/admin.js:291-342 | its outcome is `JobPatched`: the gate's error, then NO_FIELDS; DB_ERROR for a key that is not an integer or an `is_active` that is not a boolean; NOT_FOUND when no row has the key, which only an unscoped caller reaches; on success only that row changes, to `PatchedJob`, keeping its slug and, for a scoped caller, its company; every refusal leaves the tables unchanged |
| LegacyRouter.Handle | src/routes/admin.js:11-15 | every route but register answers UNAUTHORIZED without a header, and the middleware's error on a failed check, before any handler runs and without writing; an authenticated request gets exactly what `Served` states for the caller the middleware found; register answers and writes what `CompanyRegistered` states |
| LegacyRouter.Serve | src/routes/admin.js:67-342 | `Served`: the read routes change nothing and answer exactly the caller's visible applications, its visible jobs and its settings; each write answers and writes exactly what its handler's outcome predicate states |
| BackendAuth.IdentityOf | backend/src/models/admin.js:13-15 | the joined row carries the admin, its company key and that company's slug |
| BackendAuth.FindByUsername | backend/src/models/admin.js:11-20 | none exactly when no admin with that username has an existing company; otherwise the one of those admins with the least key, joined |
| BackendAuth.FindByCompanyId | backend/src/models/admin.js:22-31 | none exactly when the company has no admin or does not exist; otherwise its first admin, joined |
| BackendAuth.Authenticate | backend/src/middleware/auth.js:13-81 | with a username, no joined admin of that name is INVALID_CREDENTIALS and success means that admin's hash matched; without one, the env hash matched and the identity is an admin of company 1; CONFIG_ERROR for a missing env hash or a missing admin of company 1; the only errors are INVALID_CREDENTIALS, CONFIG_ERROR and SERVER_ERROR |
| BackendAuth.AuthKnownUser | backend/src/middleware/auth.js:27-43 | a username held by one admin of an existing company is decided by that admin's hash alone |
| BackendAuth.AuthLegacySecret | backend/src/middleware/auth.js:45-80 | without a username: an unset or empty env hash is CONFIG_ERROR; a failing comparison SERVER_ERROR; a mismatch INVALID_CREDENTIALS; a match gives company 1's first joined admin, or CONFIG_ERROR when there is none |
| BackendAuth.NamedIgnoresSecret | backend/src/middleware/auth.js:27-43 | with a username, the env hash plays no part in the answer |
| BackendAuth.ConfigErrorMeansNoAdmin | backend/src/index.js:62 | once the start-up check has accepted the env hash, CONFIG_ERROR means there was no username and company 1 has no admin |
| JobModel.FindByCompanyId | backend/src/models/job.js:10-20 | exactly the company's jobs, when the company exists, each once, latest first |
| JobModel.FindById | backend/src/models/job.js:22-31 | the job under that key when its company exists; nothing otherwise; SERVER_ERROR for a key that is not an integer |
| JobModel.TitleSlugShape | backend/src/models/job.js:73-76 | the update slug is `ScanRuns` of the lower-cased title: it is empty only for an empty title, keeps every letter and digit of the lower-cased title and never has two dashes in a row |
| JobModel.TitleSlugExample | backend/src/models/job.js:75 | the title `A  b` has the update slug `a-b`: the capital is lowered and the run of two spaces becomes one dash |
| JobModel.SqlSlugAsWrittenDropsCapitals | backend/src/models/job.js:53 | as written, the create slug keeps only the title's lower-case letters and digits |
| JobModel.SqlSlugCounterexample | backend/src/models/job.js:53 | the title "Go" gets the slug "-o" as written and "go" with lower-casing first |
| JobModel.SlugsAgreeWithoutCapitals | backend/src/models/job.js:53 | without capitals, the create and update formulas agree |
| JobModel.NewJob | backend/src/models/job.js:33-57 | the inserted row carries the title, status draft when the data has none, the company given, NULL department and `is_active` true; its slug, as written, is NULL exactly for a NULL title, is `SqlSlugAsWritten` of the title, and keeps only the title's lower-case letters and digits |
| JobModel.NewJobCorrected | backend/src/models/job.js:53 | the same row with the slug lower-cased first: the slug is `ScanRuns` of the lower-cased title, keeps every letter and digit of it and never has two dashes in a row |
| JobModel.CompanyKey | backend/src/models/job.js:38 | the company key bound is `company_id` read as a positive integer |
| JobModel.Create | backend/src/models/job.js:33-59 | one INSERT, refused with nothing changed when the company key names no company; otherwise the `NewJob` row, with its as-written slug, under the next key |
| JobModel.NewValue | backend/src/models/job.js:82-121 | a field is written exactly when its new value is truthy; the slug exactly when the title is, and it is then the title's slug |
| JobModel.PlannedSettings | backend/src/models/job.js:78-121 | the placeholders of the SET list run 1, 2, …; every entry is a truthy field of an earlier block, with its new value, in block order |
| JobModel.PlannedKeeps | backend/src/models/job.js:82-121 | every field with a truthy value has its entry |
| JobModel.PlannedEmpty | backend/src/models/job.js:82-126 | the SET list is empty exactly when no field has a truthy value |
| JobModel.NothingPlanned | backend/src/models/job.js:82-121 | with no truthy field, no block adds an entry |
| JobModel.SomethingPlanned | backend/src/models/job.js:82-116 | one truthy field is enough for an entry |
| JobModel.PushIfTruthy | backend/src/models/job.js:82-86 | one `if` block extends the SET list by its field exactly when the field is truthy, keeping `valueIndex` one past the last placeholder |
| JobModel.PushFieldBlocks | backend/src/models/job.js:78-116 | from an empty list and `valueIndex` 1, the blocks from `title` to `salary_range` build the planned list up to the slug |
| JobModel.PushLaterBlocks | backend/src/models/job.js:97-116 | the blocks from `status` to `salary_range` extend the planned list by their truthy fields |
| JobModel.PushSlug | backend/src/models/job.js:117-121 | the slug block adds the slug exactly when the title is truthy, completing the planned list |
| JobModel.BuildSettings | backend/src/models/job.js:73-123 | the eight blocks build the planned SET list, and the key placeholder is one past its last entry |
| JobModel.ApplyFields | backend/src/models/job.js:125-128 | field by field, the UPDATE writes each truthy value and keeps every other field |
| JobModel.TruthyPatched | backend/src/models/job.js:61-71 | `update` never changes the key, company, department, `is_active` or posting date |
| JobModel.UpdatePatch | backend/src/models/job.js:61-132 | the UPDATE built by `update` sets exactly the truthy fields, and the slug when the title is truthy |
| JobModel.RowKey | backend/src/models/job.js:123-127 | an absent `id` selects no row; a key that is not an integer makes the query throw |
| JobModel.Update | backend/src/models/job.js:61-132 | a title that is not a string, or nothing to write, is SERVER_ERROR; as written, with `WHERE id`, every call is SERVER_ERROR and changes nothing; keyed by `job_id`, only the selected row changes, to `TruthyPatched`, and every failure leaves the tables unchanged |
| ApplicationModel.FindByCompanyId | backend/src/models/application.js:9-30 | exactly the applications to the company's jobs, each once, latest first |
| ApplicationModel.FindById | backend/src/models/application.js:32-52 | the application only when it is one of the company's; SERVER_ERROR for a key that is not an integer |
| ApplicationModel.FoundIsListed | backend/src/models/application.js:9-52 | what `findById` finds, `findByCompanyId` lists |
| ApplicationModel.UpdateStatus | backend/src/models/application.js:54-72 | changes a row exactly when `findById` would find it, and then only its status; reading it back gives the new row; otherwise the tables are unchanged |
| AdminController.SettingsOfAuthenticated | backend/src/controllers/adminController.js:7-19 | the settings of an authenticated admin name a stored admin, its company and that company's slug |
| AdminController.CreateJobData | backend/src/controllers/adminController.js:50-54 | the job data binds the admin's company whatever the body says, status draft for a falsy one, and every other body key as given |
| AdminController.CreateJob | backend/src/controllers/adminController.js:47-69 | its outcome is `JobCreated`: the new job is exactly `NewJob` of the job data under the next key; it belongs to the admin's company, with the body's title and status or draft; a failure is SERVER_ERROR with nothing changed |
| AdminController.JobOwned | backend/src/controllers/adminController.js:76-83 | a missing job and another company's job give the same NOT_FOUND; a key that is not an integer is SERVER_ERROR |
| AdminController.UpdateJobData | backend/src/controllers/adminController.js:85-89 | the job data binds the route's id and the admin's company, and every other body key as given |
| AdminController.UpdateJobDataFields | backend/src/controllers/adminController.js:85-91 | the fields `update` reads are the body's |
| AdminController.UpdateJob | backend/src/controllers/adminController.js:71-104 | its outcome is `JobUpdated`: refusals are NOT_FOUND or SERVER_ERROR and change nothing; as written, a job that passes the ownership check still gets SERVER_ERROR; keyed by `job_id`, only a job of the admin's company changes, to `TruthyPatched` |
| AdminController.UpdateApplication | backend/src/controllers/adminController.js:124-166 | its outcome is `ApplicationUpdated`: MISSING_FIELDS, then INVALID_STATUS for a status outside the seven, before any database access; then SERVER_ERROR for a key that is not an integer and NOT_FOUND unless the application is the company's; only its status changes |
| AdminController.AsWrittenAdminLockedOut | backend/src/controllers/adminController.js:183 | as written, an admin registered with a NULL company can never sign in |
| AdminController.Register | backend/src/controllers/adminController.js:168-209 | its outcome is `CompanySignedUp`: MISSING_FIELDS unless all four fields are truthy; DUPLICATE_ENTRY for a taken slug or username; SERVER_ERROR for a password that is not a string, leaving the company behind; on success a new company and an admin with the hashed password, which as written has no company and, with the returned key, is bound to the new company |
| AdminController.RegisteredAdminSignsIn | backend/src/controllers/adminController.js:180-183 | an admin bound to its company, as registration with the returned key leaves it, signs in with `username:password` as itself |
| AdminController.Serve | backend/src/routes/admin.js:10-15 | `Served`: a read changes nothing and answers `Read`; a write answers and writes what its handler's outcome predicate states, `updateJob` with the key column as written; every successful reply shows only the admin's company's data |
| AdminController.Read | backend/src/routes/admin.js:10-14 | the settings are `SettingsOf` the admin; the job list is the rows `FindByCompanyId` selects for its company, and the application list the rows `ApplicationModel.FindByCompanyId` selects; all of it belongs to its company |
| AdminController.Write | backend/src/routes/admin.js:12-15 | `Served` for the three write routes: each answers and writes exactly what `createJob`, `updateJob` with the key column as written, or `updateApplication` does; a created or updated row belongs to the admin's company |
| AdminController.Handle | backend/src/routes/admin.js:7-15 | every route but register answers UNAUTHORIZED without a header, and the middleware's error on a failed check, without writing; an authenticated request gets exactly what `Served` states for the identity the middleware found; register is public and answers and writes what `CompanySignedUp` states with the admin's company as written |
| PublicJobs.Board | backend/src/routes/jobs.js:16-28 | exactly the company's published, active jobs, each once, latest first |
| PublicJobs.BoardRows | backend/src/routes/jobs.js:16-28 | the board's rows are exactly the rows of `Board`, in its order: each a published, active job of that company, latest first |
| PublicJobs.Detail | backend/src/routes/jobs.js:36-51 | NOT_FOUND exactly when no job is at the link; otherwise the least key of a job at it |
| PublicJobs.LinkReply | backend/src/routes/jobs.js:36-51 | the served row is at the link and stored; NOT_FOUND only when no job is at it |
| PublicJobs.ById | backend/src/routes/jobs.js:59-64 | the stored job under that key whatever its status; NOT_FOUND for a missing one and DB_ERROR for a key that is not an integer |
| PublicJobs.Serve | backend/src/routes/jobs.js:11-69 | the root answers its message; a board answers `BoardRows`; a link answers the row `LinkReply` finds or its NOT_FOUND; the id lookup answers what `ById` answers, the stored row or its error |
| PublicJobs.RootReadsNothing | backend/src/routes/jobs.js:11-13 | the root message does not depend on the tables |
| PublicJobs.LinkedIsOnBoard | backend/src/routes/jobs.js:36-51 | a job reached by its link is on the company's board |
| PublicJobs.OnBoardIsLinked | backend/src/routes/jobs.js:36-51 | every job on a board that has a slug is reachable by a link naming that slug |
| PublicJobs.ByIdIgnoresPublication | backend/src/routes/jobs.js:58-64 | every stored job is served by its key in decimal, published or not |
| PublicJobs.DuplicateLinkServesOne | backend/src/routes/jobs.js:44-45 | of two jobs at the same link, both on the board, the link never serves the one with the larger key |
| ApplicationRoutes.BaseName | backend/src/routes/applications.js:23 | the last path component holds no `/` |
| ApplicationRoutes.ExtName | backend/src/routes/applications.js:23 | the extension is empty or a dot with no further dot, and is a suffix of the last path component, shorter than it when not empty |
| ApplicationRoutes.ExtNameOf | backend/src/routes/applications.js:23 | the extension of `stem.x` is `.x` |
| ApplicationRoutes.DottedAllowed | backend/src/routes/applications.js:22 | the allowed types are exactly `.pdf` and `.docx` |
| ApplicationRoutes.DocumentsAccepted | backend/src/routes/applications.js:21-29 | any name ending in a pdf or docx extension, in any letter case, is kept |
| ApplicationRoutes.OtherTypesRefused | backend/src/routes/applications.js:21-29 | any other extension is refused |
| ApplicationRoutes.DotFileRefused | backend/src/routes/applications.js:21-29 | a name that is only a dot and an extension, such as `.pdf`, has no extension and is refused |
| ApplicationRoutes.DomainMatchShape | backend/src/routes/applications.js:57 | the regex's domain part matches exactly the domains of two or more non-empty `[\w-]` labels whose last label has 2 to 4 characters |
| ApplicationRoutes.EmailRegexShape | backend/src/routes/applications.js:57 | the regex accepts exactly one `@` after a non-empty `[\w-.]` local part, followed by such a domain |
| ApplicationRoutes.MissingEmailRefused | backend/src/routes/applications.js:44-58 | a form without an email fails the check |
| ApplicationRoutes.LongTopLabelRefused | backend/src/routes/applications.js:57 | an address whose last label has more than four characters is refused |
| ApplicationRoutes.JobKey | backend/src/routes/applications.js:44 | the form's `job_id` read as a positive integer |
| ApplicationRoutes.NewApplication | backend/src/routes/applications.js:69-72 | the stored row carries the form's fields, status new, and the stored file's path |
| ApplicationRoutes.Submit | backend/src/routes/applications.js:42-93 | a refused upload is SERVER_ERROR; then FILE_REQUIRED, checked before INVALID_EMAIL; success exactly when the file, the email and the job are good, storing status new and the file path; every refusal leaves the tables unchanged |
| ApplicationRoutes.SubmittedIsValid | backend/src/routes/applications.js:57-72 | a stored application's email has the shape the regex demands |

## Left out

- bcrypt and base64 are left out. `Primitives` passes them in as functions.
  `HashVerifies` is the one property assumed of them: a password matches
  the hash made from it.
- Connection pools, SQL text and logging are left out. Each query is
  modelled by its effect on the tables. A DB_ERROR or SERVER_ERROR caused
  by a lost connection is not modelled.
- Concurrency is left out. Requests run one at a time, so the race between
  the older router's check-then-insert steps does not arise.
- A sequence value used by a failed INSERT is not consumed. PostgreSQL
  consumes it; the model hands the same key to the next INSERT.
- PostgreSQL reads integer parameters with surrounding whitespace or a
  sign. The model reads only plain decimal digits and treats any other
  text as an error.
- JSON bodies hold only null, booleans, integers and strings. Objects,
  arrays and fractional numbers are left out.
- Replies carry the stored rows. The joined and renamed columns
  (`job_title`, `company_name`, `created_at`) and the column lists of
  `RETURNING` are left out.
- `toLowerCase` is modelled for ASCII letters only. Non-ASCII case mapping
  is left out.
- The upload's storage is left out: multer's disk writing, the UUID file
  names and the 5 MB limit (`backend/src/routes/applications.js:13-19`,
  `:34-36`). The upload is a value holding its original name and stored
  path. A refused file type reaches the error handler of
  `backend/src/index.js:44-53`, which answers SERVER_ERROR.
- The database schema is not part of this model. The model assumes:
  - a job's status defaults to draft and `is_active` defaults to true;
  - an application's `job_id` is NOT NULL and references jobs, so a
    missing `job_id` is SERVER_ERROR;
  - usernames and company slugs are unique.
  The application status sets are checked only in the handlers, not in the
  database.
- ParseDecimal: reads any string of digits, however long. PostgreSQL's
  `integer` stops at 2147483647, so `GET /api/jobs/id/99999999999` is
  DB_ERROR in the code but NOT_FOUND in the model.
- IntValue: has no integer range, for the same reason; a key or
  `company_id` beyond 2147483647 is read as an integer.
- IdParam: has no integer range either; keys are unbounded in the model.
- BoolValue: accepts only JSON booleans and `null`. PostgreSQL's boolean
  input also accepts the strings `t`, `true`, `yes`, `on`, `1` and their
  negations, and node-postgres sends the number 1 as `'1'`; those bodies
  are refused in the model.
- Register: the reply's `company.id` is undefined as written, so the JSON
  omits it; replies are modelled as the stored rows.
- The jobs table's key column is taken to be `job_id`, the name every query
  but `backend/src/models/job.js:127` uses; no schema is part of this model.
- LegacyRouter.UpdateJob: the second ownership check at
  `src/routes/admin.js:329-335` is not a separate step. After a successful
  gate the row keeps its company, so the check never refuses. The contract
  states this instead.
- Frontend pages are not part of this model. `backend/src/models/company.js`
  is not part of this model either, except for the INSERT that registration
  performs.

## Findings

| source | as written | input that shows it | evidently intended | confidence | as-written member | corrected member |
|---|---|---|---|---|---|---|
| backend/src/controllers/adminController.js:183 | the admin is bound to `company.id`, but `Company.create` returns the key as `company_id`, so the admin's company is NULL | any successful registration, then signing in as the new admin | bind the admin to `company.company_id`, so it can sign in | not executed | AdminController.AsWrittenAdminLockedOut | AdminController.RegisteredAdminSignsIn |
| backend/src/models/job.js:53 | `lower(regexp_replace($1, '[^a-z0-9]+', '-', 'g'))` replaces capitals before lower-casing them | title "Go" gets slug "-o" | lower-case first, as `update` does at job.js:75, giving "go" | not executed | JobModel.SqlSlugCounterexample | JobModel.NewJobCorrected |
| backend/src/models/job.js:127 | the UPDATE selects `WHERE id = $n`, but jobs are keyed by `job_id`, so PostgreSQL rejects the statement | PATCH /api/admin/jobs/1 with `{"title": "Go"}` by the admin owning job 1: SERVER_ERROR | `WHERE job_id = $n`, so the owned job is patched | not executed; inferred from every other query, no schema in the repository | AdminController.UpdateJob | JobModel.Update |

The routes use the code as written: `AdminController.Handle` registers with
`UndefinedId` and patches jobs through `IdColumn`, and `JobModel.Create`
stores the as-written slug. The corrected halves are `Register` with
`ReturnedKey`, `JobModel.Update` and `AdminController.UpdateJob` with
`JobIdColumn`, and `JobModel.NewJobCorrected`.
