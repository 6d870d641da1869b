# Payroll system: a verified Dafny model of its core

The system is a small HR and payroll web application. It stores positions and employees in a SQLite
database, gates pages by role and computes payroll figures. This project models, in Dafny, the
parts of it that decide or compute something:

- **Access policy.** The role-to-pages table (`ROLE_PAGES`) and the request middleware, which
  redirects a role away from path prefixes it may not see, behind the `authorized` callback and the
  `config.matcher` path set.
  - The middleware never consults the table. The model proves (`Middleware.AgreesWithRolePages`)
    that the two agree on every matched path.
  - It also captures the middleware's quirks as they are:
    - a role string other than the four is let through everywhere (fail-open);
    - prefixes are compared with `startsWith`, so `/payroll-x` counts as `/payroll`;
    - the redirect target `/unauthorized` lies outside the matcher.
- **Sign-in.** The credentials lookup over the built-in user table, and the `jwt` / `session`
  callbacks that copy the role onto the token and then onto the session. The callbacks are
  methods that update the objects they are given.
- **Period payroll.** The payroll page's `calculatePayroll`: 7 or 14 days, 16% tax and 7.25%
  social security. The payroll-type filter and the net, gross and deduction totals folded over
  the filtered list.
- **Payroll entries.** `calculateNetPay`, `calculateBaseSalary` and `getEmployeeById` over the mock
  data, and the consistency of the seed entries with them.
- **Payroll form.** A class whose fields `formData`, `netPay` and `selectedEmployee` are changed
  by the handlers for choosing an employee, editing one field and submitting.
- **Validation.** The employee and position request schemas, as acceptance predicates over a JSON
  object. The list of failing fields is the error the API route reports.
- **Reports and dashboard.** The four breakdown reducers, proved against a counting
  specification. The reducers are a loop over a dictionary that records key insertion order. Also
  the salary total, the average, the chart percentages, the filled-position count, open positions
  and utilisation.
- **Services.** `PositionService` and `EmployeeService` over one database object (`Database.Db`)
  whose two tables are maps from id to row.
  - The constraints `src/lib/database.ts` declares are enforced and kept as the object's invariant:
    - `payrollNumber` is UNIQUE;
    - the FOREIGN KEY `positionId` references `positions(id)`, with foreign keys switched on;
    - `isFilled` has DEFAULT 0.
  - The partial updates build their SET clauses step by step, as `src/modules/position.ts` and
    `src/modules/employee.ts` do. They are proved
    to change exactly the defined fields of the one row.

Money is Dafny's exact `real`. Ids are unbounded integers.

## Model

| member | source | states |
|---|---|---|
| Roles.ParseRole | src/lib/roles.ts:2 | a parsed role prints back as the string it was read from |
| Roles.RolePages | src/lib/roles.ts:4-9 | every row lists dashboard, employees and reports, and no row lists a page twice |
| Roles.RoleNamesRoundTrip | src/lib/roles.ts:2 | each of the four role literals parses back to its role |
| Roles.AdminSeesEverything | src/lib/roles.ts:5 | ADMIN's row holds all six page keys |
| Roles.RowsWithinAdmin | src/lib/roles.ts:5-8 | every role's row is contained in ADMIN's |
| Roles.HRLacksOnlyPayroll | src/lib/roles.ts:6 | HR may see exactly the pages other than payroll |
| Roles.PayrollLacksPositionsAndApplicants | src/lib/roles.ts:7 | PAYROLL may see exactly the pages other than positions and applicants |
| Roles.ManagerLacksPayrollAndApplicants | src/lib/roles.ts:8 | MANAGER may see exactly the pages other than payroll and applicants |
| Middleware.Decide | src/middleware.ts:5-27 | ADMIN always passes; any redirect goes to `/unauthorized` and only from a path starting with `/payroll`, `/positions` or `/applicants` |
| Middleware.Authorized | src/middleware.ts:31 | a request is authorized exactly when it carries a token |
| Middleware.PageOfMatched | src/middleware.ts:36-45 | a path gets a page key exactly when the matcher matches it |
| Middleware.Under | src/middleware.ts:36-45 | definition: a matcher entry `/x/:path*` covers `/x` and the paths below it; used by `Middleware.PageOfMatched` |
| Middleware.Matches | src/middleware.ts:36-45 | definition of `config.matcher`; `Middleware.PageOfMatched` and `Middleware.RedirectLeavesMatcher` state its properties |
| Middleware.Handle | src/middleware.ts:4-34 | unmatched paths are not intercepted; a matched path without a token is sent to sign in; otherwise the middleware decides on the token's role |
| Middleware.UnknownRolePasses | src/middleware.ts:27 | no role claim, or a role outside the four, passes on every path |
| Middleware.HRRedirects | src/middleware.ts:13-15 | HR is redirected exactly on paths starting with `/payroll` |
| Middleware.PayrollRedirects | src/middleware.ts:18-20 | PAYROLL is redirected exactly on paths starting with `/positions` or `/applicants` |
| Middleware.ManagerRedirects | src/middleware.ts:23-25 | MANAGER is redirected exactly on paths starting with `/payroll` or `/applicants` |
| Middleware.PrefixQuirk | src/middleware.ts:13 | `/payroll-x` is redirected for HR by prefix, yet the matcher never sends it to the middleware |
| Middleware.RedirectLeavesMatcher | src/middleware.ts:36-45 | a redirect target is never matched, so a redirect is not checked again |
| Middleware.AgreesWithRolePages | src/middleware.ts:10-27 | for the four roles on every matched path, a redirect happens exactly when the path's page is missing from the role's ROLE_PAGES row |
| Middleware.StartsWithClassifies | src/middleware.ts:36-45 | on a matched path, each restricted prefix is seen exactly when the path belongs to that page |
| Auth.FindUser | src/lib/auth.ts:47-49 | the index of the first user matching both email and password; none exactly when no user matches |
| Auth.Authorize | src/lib/auth.ts:44-53 | null for a missing or empty email or password; a result is a table user with both values equal to those supplied; null when a complete pair matches nobody |
| Auth.EmailsDistinct | src/lib/auth.ts:5-34 | the built-in emails are pairwise distinct |
| Auth.AuthorizeUnique | src/lib/auth.ts:47-51 | a successful sign-in names the only user with that email |
| Auth.UserRolesAreRoles | src/lib/auth.ts:5-34 | every built-in user's role is one of the four role literals |
| Auth.Jwt | src/lib/auth.ts:57-60 | the token gets the user's role when a user is given and is otherwise unchanged; the same token is returned |
| Auth.SessionCallback | src/lib/auth.ts:61-66 | `session.user.role` becomes the token's role when there is a session user; the same session is returned |
| PayrollPage.DaysInPeriod | src/app/payroll/page.tsx:42 | 7 days exactly for `SEMANAL`, 14 for every other payroll type |
| PayrollPage.CalculatePayroll | src/app/payroll/page.tsx:41-57 | net plus deductions is gross; net is 76.75% of gross; with a non-negative salary net lies between 0 and gross |
| PayrollPage.PayrollOfSalary | src/app/payroll/page.tsx:43-46 | gross is salary times days; taxes are 16%, social security 7.25%, deductions 23.25% of gross |
| PayrollPage.PayrollExamples | src/app/payroll/page.tsx:41-57 | a daily salary of 100 nets 537.25 weekly and 1074.50 fortnightly |
| PayrollPage.FilterEmployees | src/app/payroll/page.tsx:37-39 | the filtered list is no longer than the list |
| PayrollPage.FilterAppend | src/app/payroll/page.tsx:37-39 | the filter distributes over concatenation, so it keeps order |
| PayrollPage.FilterSingle | src/app/payroll/page.tsx:37-39 | one employee is kept exactly when selected |
| PayrollPage.FilterAll | src/app/payroll/page.tsx:38 | `all` keeps every employee |
| PayrollPage.FilterExact | src/app/payroll/page.tsx:37-39 | an employee is in the filtered list exactly when it is in the list and selected |
| PayrollPage.TotalPayroll | src/app/payroll/page.tsx:59-61 | an empty filtered list totals 0 |
| PayrollPage.TotalGross | src/app/payroll/page.tsx:125-127 | definition of the Total Gross Pay card; `PayrollPage.TotalsBalance` and `PayrollPage.TotalsAdditive` state its properties |
| PayrollPage.TotalDeductions | src/app/payroll/page.tsx:139-141 | definition of the Total Deductions card; `PayrollPage.TotalsBalance` and `PayrollPage.TotalsAdditive` state its properties |
| PayrollPage.SumOverAppend | src/app/payroll/page.tsx:59-61 | each fold is additive over concatenation |
| PayrollPage.TotalsAdditive | src/app/payroll/page.tsx:59-61 | net, gross and deduction totals are additive over the fetched list |
| PayrollPage.GrossSplits | src/app/payroll/page.tsx:41-61 | summed gross minus summed deductions is summed net, which is 76.75% of summed gross |
| PayrollPage.TotalsBalance | src/app/payroll/page.tsx:59-61 | total gross minus total deductions is the total payroll |
| PayrollPage.SumOverNonNegative | src/app/payroll/page.tsx:59-61 | a fold of non-negative amounts is non-negative |
| PayrollPage.TotalPayrollBounds | src/app/payroll/page.tsx:59-61 | with no negative salary the total payroll lies between 0 and the total gross |
| PayrollData.CalculateNetPay | src/lib/payrollData.ts:107-109 | net plus deductions plus taxes equals base plus bonuses |
| PayrollData.CalculateBaseSalary | src/lib/payrollData.ts:115-117 | the base divided by the days gives back the daily salary, and it is non-negative for non-negative inputs |
| PayrollData.NetPayMoves | src/lib/payrollData.ts:107-109 | a unit of bonus adds one to the net, a unit of deduction takes one off, and bonuses default to 0 |
| PayrollData.BaseSalaryDefault | src/lib/payrollData.ts:115-117 | without a day count the base salary is the daily salary times 30 |
| PayrollData.FindById | src/lib/payrollData.ts:112 | the index of the first employee with that id; none exactly when no employee has it |
| PayrollData.GetEmployeeById | src/lib/payrollData.ts:111-113 | a mock employee with that id, or nothing exactly when none has it |
| PayrollData.MockIdsDistinct | src/lib/payrollData.ts:24-65 | the mock ids are pairwise distinct, so each is found as its own employee |
| PayrollData.SeedEntriesConsistent | src/lib/payrollData.ts:67-104 | every seed entry's net pay and 30-day base salary agree with the helpers, and its employee id names its employee |
| PayrollData.EntryFindsEmployee | src/lib/payrollData.ts:67-104 | one seed entry is consistent with the helpers |
| PayrollFormState.InitialFormData | src/components/payroll/PayrollForm.tsx:24-32 | missing amounts and id start at 0, a missing or empty date becomes today, a missing status `pending` |
| PayrollFormState.EmptyInitialForm | src/components/payroll/PayrollForm.tsx:24-32 | without initial data the form is all zeros, today's date and pending |
| PayrollFormState.InitialSelection | src/components/payroll/PayrollForm.tsx:35-37 | the given employee when there is one; otherwise, for a given id, a selection exactly when some mock employee has that id, and it is that employee; none without either |
| PayrollFormState.SetField | src/components/payroll/PayrollForm.tsx:59-62 | the named field reads the new value and every other field its old one |
| PayrollFormState.PayrollForm.constructor | src/components/payroll/PayrollForm.tsx:24-43 | the initial form and selection, with the net pay the effect computes |
| PayrollFormState.PayrollForm.RecalculateNetPay | src/components/payroll/PayrollForm.tsx:40-43 | `netPay` becomes `calculateNetPay` of the current form |
| PayrollFormState.PayrollForm.HandleEmployeeChange | src/components/payroll/PayrollForm.tsx:45-56 | a known employee is selected and sets the id and a 30-day base salary, with nothing else changed; an unknown id changes nothing |
| PayrollFormState.PayrollForm.HandleInputChange | src/components/payroll/PayrollForm.tsx:58-63 | exactly the named field changes; net pay follows |
| PayrollFormState.PayrollForm.HandleSubmit | src/components/payroll/PayrollForm.tsx:65-72 | nothing is submitted exactly when no employee is chosen; otherwise the current form is |
| PayrollFormState.PayrollForm.DisplayedDeductions | src/components/payroll/PayrollForm.tsx:212 | base plus bonuses minus the displayed deductions is the net pay shown |
| PayrollFormState.UnknownEmployeeIds | src/components/payroll/PayrollForm.tsx:46-47 | 0 and every id outside 1..5 find no employee |
| Json.Get | src/schemas/employee.ts:12-36 | a property is read exactly when the object has it |
| EmployeeSchema.IssuesAmong | src/schemas/employee.ts:12-36 | the issues are exactly the listed fields whose rule fails |
| EmployeeSchema.SchemaOrderComplete | src/schemas/employee.ts:12-36 | the error report covers all 23 fields |
| EmployeeSchema.FieldAccepts | src/schemas/employee.ts:12-36 | definition: one field's rule; `EmployeeSchema.AcceptedNumbers`, `EmployeeSchema.AcceptedCodes` and `EmployeeSchema.AcceptedText` state what it admits |
| EmployeeSchema.Accepts | src/schemas/employee.ts:12-36 | definition of `safeParse(...).success`; `EmployeeSchema.AcceptsIffNoIssues` ties it to the reported issues |
| EmployeeSchema.IssuesExactly | src/schemas/employee.ts:12-36 | the issues are exactly the fields whose rule fails |
| EmployeeSchema.AcceptsIffNoIssues | src/schemas/employee.ts:12-36 | a body is accepted exactly when no field fails its rule |
| EmployeeSchema.AcceptedNumbers | src/schemas/employee.ts:13-26 | an accepted body has positive integer payroll number and position id and a positive salary |
| EmployeeSchema.AcceptedCodes | src/schemas/employee.ts:17-19 | an accepted body has an 11-character NSS, 13-character RFC and 18-character CURP |
| EmployeeSchema.AcceptedText | src/schemas/employee.ts:14-34 | an accepted body has a name of 2 or more characters, a bank account of 10 or more, a cost centre, a listed payroll type and two valid dates |
| PositionSchema.IssuesAmong | src/schemas/position.ts:9-14 | the issues are exactly the listed fields whose rule fails |
| PositionSchema.SchemaOrderComplete | src/schemas/position.ts:9-14 | the error report covers all four fields |
| PositionSchema.FieldAccepts | src/schemas/position.ts:9-14 | definition: one field's rule; `PositionSchema.AcceptedBody` and `PositionSchema.IsFilledOptional` state what it admits |
| PositionSchema.Accepts | src/schemas/position.ts:9-14 | definition of `safeParse(...).success`; `PositionSchema.AcceptsIffNoIssues` ties it to the reported issues |
| PositionSchema.IssuesExactly | src/schemas/position.ts:9-14 | the issues are exactly the fields whose rule fails |
| PositionSchema.AcceptsIffNoIssues | src/schemas/position.ts:9-14 | a body is accepted exactly when no field fails its rule |
| PositionSchema.IsFilledOptional | src/schemas/position.ts:13 | `isFilled` passes exactly when absent or boolean; `null` is refused |
| PositionSchema.AcceptedBody | src/schemas/position.ts:10-12 | an accepted body has a title of 2 or more characters, a listed department and a positive salary |
| PositionSchema.DepartmentListsAgree | src/schemas/position.ts:4-7 | the position schema's 12 departments are the employee schema's list |
| Dashboard.TotalPayroll | src/app/page.tsx:54 | definition of the salary reduce; `Dashboard.TotalPayrollAppend` and `Dashboard.TotalPayrollBounds` state its properties |
| Dashboard.TotalPayrollAppend | src/app/page.tsx:54 | the salary total is additive over concatenation |
| Dashboard.TotalPayrollBounds | src/app/page.tsx:54 | salaries between lo and hi total between n·lo and n·hi |
| Dashboard.FilledPositions | src/app/page.tsx:55 | at most the number of positions; equal exactly when all are filled, 0 exactly when none is |
| Dashboard.Stats | src/app/page.tsx:54-62 | the counts are the list lengths, the filled count is the number of filled positions (so never more than the total), the payroll is the salary total |
| Dashboard.OpenPositions | src/app/page.tsx:214 | open positions are between 0 and the total |
| Dashboard.Round | src/app/page.tsx:188 | the nearest integer, halves rounded up |
| Dashboard.Utilization | src/app/page.tsx:187-190 | 0 without positions, otherwise a percentage in 0..100 |
| Dashboard.RatioBounds | src/app/page.tsx:188 | the filled ratio times 100 is non-negative, and at most 100 when filled does not exceed total |
| Dashboard.UtilizationExtremes | src/app/page.tsx:187-190 | 0 before the fetch and with nothing filled, 100 with everything filled |
| Reports.Count | src/app/reports/page.tsx:49-52 | a count never exceeds the number of employees |
| Reports.Tally | src/app/reports/page.tsx:49-52 | definition of the reducer's accumulator; `Reports.TallyCounts` and `Reports.TallyStep` state its properties |
| Reports.KeyOrder | src/app/reports/page.tsx:49-52 | definition of the accumulator's insertion order; `Reports.KeyOrderIsDomain` states its properties |
| Reports.TallyCounts | src/app/reports/page.tsx:49-52 | a key is present exactly when some employee has it, with the count of employees having it |
| Reports.TallyStep | src/app/reports/page.tsx:50 | folding one employee adds 1 under its key and changes no other key |
| Reports.KeyOrderIsDomain | src/app/reports/page.tsx:120 | the listed keys are distinct and are exactly the dictionary's keys |
| Reports.SumAlongAppend | src/app/reports/page.tsx:120 | adding up counts along a key list extends over one more key |
| Reports.SumAlongUnlisted | src/app/reports/page.tsx:120 | a key outside the list does not affect the sum along it |
| Reports.SumAlongBump | src/app/reports/page.tsx:50 | adding 1 under a listed key adds 1 to the sum |
| Reports.CountsSumToTotal | src/app/reports/page.tsx:49-67 | in each breakdown the counts add up to the number of employees |
| Reports.PrefixStep | src/app/reports/page.tsx:49-52 | one reducer step: the key count rises by one and a new key is appended to the key order |
| Reports.Breakdown | src/app/reports/page.tsx:49-67 | the reducer's dictionary is the count specification, and its key order the first-seen order |
| Reports.AverageSalary | src/app/reports/page.tsx:70 | 0 for no employees, otherwise the average times the head count is the salary total |
| Reports.AverageSalaryBounds | src/app/reports/page.tsx:69-70 | the average lies between any lower and upper salary bound |
| Reports.PercentagesAlongSum | src/app/reports/page.tsx:121 | the percentages along the keys add up to the percentage of the summed counts |
| Reports.PercentageAdds | src/app/reports/page.tsx:121 | percentages of the same total add |
| Reports.ChartPercentages | src/app/reports/page.tsx:116-121 | over a non-empty list each bar is in (0, 100] and the bars sum to 100 |
| Reports.PercentageBounds | src/app/reports/page.tsx:121 | a count between 1 and the total gives a percentage in (0, 100], 100 for the total |
| Reports.BuildReport | src/app/reports/page.tsx:49-81 | the totals are the list lengths; each breakdown is the count specification; total payroll and average as specified |
| Database.EveryEmployeeColumn | src/lib/database.ts:21-47 | the employee table has all 23 columns |
| Database.Db.Valid | src/lib/database.ts:21-47 | definition of the database invariant: well-formed rows below the id counters, UNIQUE `payrollNumber` and the `positionId` foreign key; `Database.PutEmployeeKeepsConstraints` and every service method keep it |
| Database.PutEmployeeKeepsConstraints | src/lib/database.ts:21-47 | storing a row whose payroll number no other row holds and whose position exists keeps UNIQUE and the foreign key |
| Database.ExecUpdate | src/modules/position.ts:72-74 | the ids are unchanged and every row other than the `WHERE id` row is unchanged |
| Database.ApplySetAt | src/modules/employee.ts:171-175 | clauses over distinct columns set each listed column to its value and keep the others |
| Database.ApplySet | src/modules/employee.ts:171-175 | definition of the SQL `SET` list run on one row; `Database.ApplySetAt` states its effect |
| Database.Db.constructor | src/lib/database.ts:12-48 | both tables start empty, with the constraints holding |
| PositionService.ToPosition | src/modules/position.ts:31-34 | `isFilled` reads true exactly for a nonzero stored integer; the other fields are the stored ones |
| PositionService.GetById | src/modules/position.ts:27-35 | null exactly for a missing id; otherwise the stored row read back |
| PositionService.RowsBelowContents | src/modules/position.ts:18-25 | the listed rows are each stored row once, read back, in ascending id order |
| PositionService.GetAll | src/modules/position.ts:18-25 | every stored row read back, once each, in ascending id order |
| PositionService.NewPositionRecord | src/modules/position.ts:37-42 | the inserted row is well-formed and `isFilled` reads false |
| PositionService.Create | src/modules/position.ts:37-44 | the row is stored under a fresh id with `isFilled` false and returned |
| PositionService.PatchValue | src/modules/position.ts:53-68 | a defined value has its column's type |
| PositionService.BuildSetClauses | src/modules/position.ts:50-68 | one clause per defined field, in the order title, department, dailySalary, isFilled; each value aligned with its clause; `isFilled` as 1/0 |
| PositionService.Patched | src/modules/position.ts:50-77 | a patched row is still well-formed |
| PositionService.ClausesPatch | src/modules/position.ts:72-74 | running the built clauses on a row gives the patched row |
| PositionService.PatchedReadsBack | src/modules/position.ts:53-76 | read back, each defined field has its new value (`isFilled` as the same boolean) and every other field its old one |
| PositionService.NoFieldsNoChange | src/modules/position.ts:70 | a patch without defined fields leaves the row as it is |
| PositionService.Update | src/modules/position.ts:46-77 | null and no change for a missing id; otherwise exactly that row patched and returned read back; no write without defined fields |
| PositionService.Delete | src/modules/position.ts:79-83 | true exactly when the row existed, and afterwards it is gone; a position an employee references is not deleted |
| EmployeeService.MapRow | src/modules/employee.ts:98-107 | `positionId` and `positionTitle` become `position`, and flattening gives the row back |
| EmployeeService.MapRowBijective | src/modules/employee.ts:98-107 | `mapRow` and flattening are inverse to each other |
| EmployeeService.ToRecord | src/modules/employee.ts:132-150 | the inserted row is well-formed |
| EmployeeService.FieldValue | src/modules/employee.ts:143-150 | each bound value has its column's type |
| EmployeeService.ToRecordWellFormed | src/modules/employee.ts:132-150 | every column is bound with a value of its type |
| EmployeeService.RecordRoundTrip | src/modules/employee.ts:132-153 | the inserted row gives back all 23 input fields |
| EmployeeService.RecordAt | src/modules/employee.ts:143-150 | each of the 23 columns holds its input value |
| EmployeeService.RoundTripPart1 | src/modules/employee.ts:143-150 | the first six fields round-trip through the stored row |
| EmployeeService.RoundTripPart2 | src/modules/employee.ts:143-150 | the next six fields round-trip through the stored row |
| EmployeeService.RoundTripPart3 | src/modules/employee.ts:143-150 | the next six fields round-trip through the stored row |
| EmployeeService.RoundTripPart4 | src/modules/employee.ts:143-150 | the last five fields round-trip through the stored row |
| EmployeeService.JoinRow | src/modules/employee.ts:120-130 | definition of the `JOIN positions` row for one stored employee; `EmployeeService.GetById` states what it returns |
| EmployeeService.GetById | src/modules/employee.ts:120-130 | null exactly for a missing id; otherwise the stored fields, the position joined by id and its title |
| EmployeeService.Create | src/modules/employee.ts:132-153 | a held payroll number fails UNIQUE and an unknown position fails the foreign key, with nothing stored; with a free payroll number and an existing position the insert succeeds, storing the 23 fields under a fresh id and returning them |
| EmployeeService.DefinedMembers | src/modules/employee.ts:162-167 | a defined pair comes from an entry with that key and value, and each such entry is kept |
| EmployeeService.DefinedTyped | src/modules/employee.ts:162-167 | each defined value has its column's type |
| EmployeeService.DefinedDistinct | src/modules/employee.ts:162-167 | skipping undefined values keeps the keys distinct |
| EmployeeService.BuildSetClauses | src/modules/employee.ts:159-167 | one clause per entry whose value is defined, in entry order, with values aligned |
| EmployeeService.PatchValue | src/modules/employee.ts:162-167 | a defined value has its column's type |
| EmployeeService.PatchValueSpec | src/modules/employee.ts:162-167 | the patch defines value v for a column exactly when the entry (column, v) is present |
| EmployeeService.Patched | src/modules/employee.ts:159-177 | a patched row is still well-formed |
| EmployeeService.PatchedAt | src/modules/employee.ts:159-177 | a defined key reads its new value and any other column its old one |
| EmployeeService.ClausesPatch | src/modules/employee.ts:169-175 | the clauses are over distinct columns and running them gives the patched row |
| EmployeeService.Update | src/modules/employee.ts:155-177 | null and no change for a missing id; the current row for no defined key; otherwise exactly that row patched and read back, unless UNIQUE or the foreign key refuses the write and nothing changes |
| EmployeeService.RunUpdate | src/modules/employee.ts:171-175 | the SET clauses are applied to the `WHERE id` row unless the new row breaks UNIQUE or the foreign key, in which case nothing changes |
| EmployeeService.SetRow | src/modules/employee.ts:171-175 | well-typed clauses keep a row well-formed |
| EmployeeService.ApplySetTyped | src/modules/employee.ts:171-175 | well-typed clauses over distinct columns keep a row well-formed |
| EmployeeService.Delete | src/modules/employee.ts:180-184 | true exactly when the row existed; afterwards it is gone |

## Left out

- JSX rendering and formatting (`toLocaleString`, `toFixed`, Tailwind classes). They are presentation only; the chart percentage is modelled before `toFixed`.
- `fetch` / `axios` calls, `useEffect` scheduling, `Promise.all` and loading flags. The pages are modelled as functions of the lists the two API calls return, and an error branch only logs.
- The API route handlers. They are thin HTTP wrappers around the schemas and the services, which are modelled directly; how `birthDate` / `hireDate` are serialised before binding is not part of this model.
- `src/lib/clickup.ts`, an external network client, is not part of this model.
- SQLite itself: SQL text, `prepare`, `lastInsertRowid` and the database file path.
  - Tables are maps.
  - A fresh id is the next value of an AUTOINCREMENT counter.
  - `stmt.run` applies the SET clauses and refuses a write that breaks a declared constraint.
- NextAuth internals: JWT signing, the `signIn` page redirect and `secret`. The model stops at the `SignIn` outcome and at the two callbacks' copy logic.
- IEEE-754 rounding, NaN and infinities. Money is exact `real`, so the 16% / 7.25% products and the percentages carry no rounding.
- Date handling.
  - `z.coerce.date()` is modelled as a caller-supplied `validDate` predicate.
  - The form's default date is passed in as `today`.
- The form's `netPay` is modelled as it stands after the recalculation effect has run. The value 0 it shows before the first effect is left out.
- String lengths count characters (`seq<char>`) rather than JavaScript UTF-16 code units.
- Request bodies are JSON objects. A body that is not an object, and zod's exact issue messages, are left out.
- `Object.entries` lists integer-like keys first. The model lists keys in insertion order, which is what `Object.entries` gives for the non-numeric department, plant, payroll-type and collar-type codes.
- EmployeeService.getAll (src/modules/employee.ts:109-118) is not modelled. Its joined rows are `EmployeeService.GetById` applied to each id, and the pages take the list as input.
- PayrollPage.FilterEmployees: its own contract states only the length bound. Membership and order are stated by `FilterExact`, `FilterAll` and `FilterAppend`.
- EmployeeService.Update: it requires the entries to have distinct keys and values of their columns' types. JavaScript object keys are unique, and `Partial<CreateEmployeeData>` fixes the types; a value of the wrong type, which SQLite would store as given, is not modelled.
- Auth.Jwt, Auth.SessionCallback: the objects are modelled with only their `role` field.
