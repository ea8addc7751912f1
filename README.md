# controle-financeiro: a Dafny model of the data layer

The project models the core of the "controle-financeiro" browser app. It is a personal-finance tracker that keeps, per
user, three ordered lists in one document:

- revenues (`receitas`);
- normal expenses (`despesas`);
- future expenses (`despesas futuras`, bills not yet due).

The model covers:

- the record store, with add, merge-update and delete by id, read-modify-write;
- the user registry;
- the totals, buckets and category charts of the dashboard and the reports page;
- the submit logic of the three record forms.

Where the repository holds two revisions of a page, both are modelled: the later one under the page's name and the
earlier one as a module with `Early` in its name. Each lemma named `...Revisions` states where the two revisions differ.

Modelling choices:

- **Amounts.** Amounts are integers (cents). A parsed amount input is `Option<int>`, where `None` is `NaN`.
- **Dates.** A date is a `(year, month, day)` triple, and a calendar (`Dates.Ordinal`) numbers the days. A stored date
  may be invalid; no comparison accepts it, as with JavaScript's `NaN` dates. A date input is `Option<Date>`, where
  `None` is the empty input.
- **Now.** The current moment is the parameter `today`.
- **Fresh ids.** The id from `Date.now()` is the parameter `freshId`.
- **Browser storage.** It is three fields of `DataStorage.Storage`:
  - the `currentUser` entry (`session`);
  - the per-user `financialData_<id>` entries (`docs`);
  - the legacy `financialData` entry (`legacy`).

  A stored text that `JSON.parse` rejects is `Garbage`.
- **JavaScript objects used as dictionaries.** A dictionary is modelled as its keys in insertion order, with their
  values beside them.

Modules, file by file:

- **Shared definitions.**
  - `wrappers.dfy`: `Option`.
  - `dates.dfy`: the calendar, and the overflow rules of `new Date(y, m, d)`.
  - `text.dfy`: `trim` and number printing.
  - `records.dfy`: the record, the patch, the document, and the list filters and merges.
- **data/storage.js**: `storage.dfy`, the `Storage` class.
- **Aggregations shared by the dashboards and the reports**: `aggregates.dfy`. It holds the bucket passes, the
  category dictionary and the stable descending sort.
- **js/dashboard.js** and **scripts/Dashboard.js**: `dashboard.dfy` and `dashboard_early.dfy`.
- **relatorios.js** and **scripts/relatorios.js**: `reports.dfy` and `reports_early.dfy`.
- **The record forms**:
  - `forms.dfy` holds what the forms share;
  - **despesas.js** and **scripts/despesas.js**: `expense_form.dfy` and `expense_form_early.dfy`;
  - **receitas.js** and **scripts/receitas.js**: `revenue_form.dfy` and `revenue_form_early.dfy`;
  - **scripts/futuras.js**: `future_form.dfy`.
- **js/auth.js**: `auth.dfy`, the `Auth` class.

## Model

| member | source | states |
|---|---|---|
| DataStorage.Storage.GetData | data/storage.js:3-32 | With no session, an unreadable one, no user entry or an unreadable entry, the result is the empty document. Otherwise it is the user's document. On a user's first access, the empty document is written under the user's key, so the next read returns that same document. Nothing else changes. |
| DataStorage.Storage.SaveData | data/storage.js:34-52 | Returns true exactly when a user is logged in. In that case the document is stored under that user's key and is what the next read returns. Otherwise nothing is written. |
| DataStorage.Storage.AddToList | data/storage.js:56-62 | The stored record is the given one with the fresh id in place of any id it had. Exactly one list gains it at its end; the other lists are as they were. |
| DataStorage.Storage.UpdateInList | data/storage.js:64-73 | Reports true exactly when the list holds the patch's id. Then only the first record with that id is merged with the patch and saved. Otherwise the result is false and only the first-access write of the read happens. |
| DataStorage.Storage.DeleteFromList | data/storage.js:75-79 | The saved document has every record with the id removed from that one list. |
| DataStorage.Storage.AddRevenue | data/storage.js:56-62 | The revenue is appended under the fresh id; the expense lists are untouched. |
| DataStorage.Storage.UpdateRevenue | data/storage.js:64-73 | The first revenue with the id is merged and saved, and the result is true. With no such revenue the result is false and nothing is saved. |
| DataStorage.Storage.DeleteRevenue | data/storage.js:75-79 | Every revenue with the id is removed; the other lists are kept. |
| DataStorage.Storage.AddExpense | data/storage.js:82-89 | The expense is appended under the fresh id, with `isFuture` set to false. |
| DataStorage.Storage.UpdateExpense | data/storage.js:91-100 | It searches the normal expenses only. It merges at the first match and returns true, or returns false and saves nothing. |
| DataStorage.Storage.DeleteExpense | data/storage.js:102-106 | Every normal expense with the id is removed. |
| DataStorage.Storage.AddFutureExpense | data/storage.js:109-116 | The expense is appended to the future list under the fresh id, with `isFuture` set to true. |
| DataStorage.Storage.UpdateFutureExpense | data/storage.js:118-127 | The first future expense with the id is merged and the result is true. Otherwise the result is false and nothing is saved. |
| DataStorage.Storage.DeleteFutureExpense | data/storage.js:129-133 | Every future expense with the id is removed. |
| DataStorage.Storage.GetRevenuesByPeriod | data/storage.js:136-142 | The result holds the revenues dated inside `[start, end]`, both bounds included, in stored order. The document is unchanged. |
| DataStorage.Storage.GetExpensesByPeriod | data/storage.js:144-157 | The result is the in-period normal expenses followed by the in-period future expenses. |
| DataStorage.Storage.GetNormalExpenses | data/storage.js:159-162 | The result is the expenses whose `isFuture` is not true. |
| DataStorage.Storage.GetFutureExpenses | data/storage.js:164-167 | The result is the future list as stored. |
| DataStorage.Storage.MigrateOldData | data/storage.js:170-191 | Returns true exactly when a legacy entry and a readable session both exist. The legacy text is copied into the user's slot only when that slot is empty. |
| DataStorage.AddThenDelete | data/storage.js:56-79 | Adding a record under an id the list does not hold, then deleting that id, gives back the original document. |
| DataStorage.DeleteLaws | data/storage.js:75-79 | After a delete, no record on that list has the id. The rest keep their relative order, the other lists are unchanged, and a delete of an absent id changes nothing. |
| DataStorage.AddsKeepPartition | data/storage.js:82-116 | The flags the adds set keep every normal expense marked `isFuture: false` and every future expense marked true. |
| DataStorage.UpdateKeepsPartition | data/storage.js:91-127 | An update keeps that split unless its patch carries the other list's flag. |
| DataStorage.DeleteKeepsPartition | data/storage.js:102-133 | A delete keeps the split. |
| DataStorage.AddTotal | data/storage.js:56-62 | An add raises the list's sum by the record's amount. |
| Records.MergeLaws | data/storage.js:68-70 | A patch carrying every field replaces the record; an empty patch keeps it; merging the same patch twice equals merging it once. |
| Records.FirstIndex | data/storage.js:66 | `findIndex` by id: the first index holding the id, or -1 exactly when no record does. |
| Records.UpdateFirst | data/storage.js:66-71 | Only the record at the first match is merged; all others, and the length, stay as they were. |
| Records.WithoutId | data/storage.js:77 | The result holds exactly the records whose id differs. |
| Records.InPeriod | data/storage.js:138-141 | The result holds exactly the records dated inside `[start, end]`. |
| Records.InPeriodKeepsOrder | data/storage.js:138-141 | The period filter keeps the records' order (the result is a subsequence of the input). |
| Records.NormalOnly | data/storage.js:161 | The result holds exactly the records whose `isFuture` is not true. |
| Dates.PrecedesIffOrdinal | relatorios.js:243 | On valid dates, date order is day-number order. |
| Dates.JsMonthBounds | js/dashboard.js:57-68 | `new Date(y, m, 1)` is the first day of month `m` after year carry, and `new Date(y, m + 1, 0)` is the last day of that month. |
| Dates.DaysFromExactly | relatorios.js:239-247 | The days from `start` to `end` are exactly those between them, strictly ascending. |
| Text.Trim | despesas.js:181-184 | `trim` returns a slice of the input that neither starts nor ends with white space, with only white space around it; the result is empty exactly when the input is all white space. |
| Text.TrimIdempotent | despesas.js:181-184 | Trimming twice is trimming once. |
| Dashboard.FilterBounds | js/dashboard.js:55-70 | Each period runs from a first day to a last day: the current month, the previous month (December of the year before when today is in January), or 1 January to 31 December. Unknown periods count as the current month. |
| Dashboard.FilterDataByPeriod | js/dashboard.js:74-96 | Each of the three lists is filtered on its own. Each output is an order-keeping subsequence of its input and holds exactly the records dated inside the bounds. |
| Dashboard.UpdateMetrics | js/dashboard.js:103-107 | Expenses are normal plus future expenses, and the balance is income minus both. |
| Dashboard.MetricsAfterAdd | js/dashboard.js:103-107 | Adding an expense of either kind lowers the balance by its amount; adding a revenue raises it. |
| Dashboard.AllTaggedExactly | js/dashboard.js:137-140 | The merged list holds exactly the records of the three lists, each tagged `income`, `expense` or `future-expense` by its list. |
| Dashboard.RecentTransactionsLaws | js/dashboard.js:137-141 | The list has min(10, all records) items and is newest first. Each item comes from the list its tag names. No record left out is newer than one shown. |
| Dashboard.MonthKeys | js/dashboard.js:251-275 | The buckets are one month for current-month or last-month and the twelve months of the year for current-year. They are distinct. |
| Dashboard.GroupFilteredDataByMonth | js/dashboard.js:246-310 | The labels are the period's buckets and the three series have their length. Each value is the sum of the records of that list dated in that month; the others are dropped. |
| Dashboard.InBoundsHasBucket | js/dashboard.js:251-275 | Every date inside a period's bounds has a bucket of that period. |
| Dashboard.ChartMatchesMetrics | js/dashboard.js:277-302 | On the filtered data, the buckets of each series add up to the totals that the cards show. |
| Dashboard.UpdateCategoryChart | js/dashboard.js:335-387 | The chart is exactly the top categories of the normal and future expenses together: min(10, number of categories) distinct categories, largest first, each with its normal plus future sum. A category left out sums to no more than any category shown. |
| Aggregates.Accumulate | js/dashboard.js:277-302 | One pass into pre-made distinct buckets: each bucket gets the sum of the records whose key is its own. |
| Aggregates.BucketsAddUp | relatorios.js:250-263 | The buckets add up to the total of the records with a bucket, and to the total of all records when each has one. |
| Aggregates.CategoryTotalsLaws | relatorios.js:272-283 | Each category appears once, exactly the categories of the records appear, each with its sum, and the sums add up to the total. |
| Aggregates.GroupByCategory | relatorios.js:272-283 | The `forEach` loop builds exactly that dictionary. |
| Aggregates.SortDescLaws | js/dashboard.js:380 | The sort is largest first and stable: equal keys keep their order. |
| Aggregates.StableSortUnique | js/dashboard.js:380 | Any two stable descending sorts by the same key give the same list. |
| Aggregates.TopCategoriesLaws | js/dashboard.js:368-387 | The chart has min(10, categories) distinct entries, largest first, each with its sum. A category left out sums to no more than any shown. |
| Aggregates.TopCategoriesLeftOut | js/dashboard.js:368-387 | Any category of the records whose name is not among the top ten sums to no more than every category shown. |
| Aggregates.TopCategoryChart | js/dashboard.js:379-386 | The labels and amounts are those of the top entries. |
| Aggregates.SortedCutLaws | js/dashboard.js:141 | Sorting then cutting to `n` keeps at most `n` items of the input, sorted, and drops none ranked above an item kept. |
| DashboardEarly.UpdateMetrics | scripts/Dashboard.js:40-42 | Only normal expenses count as spending; the balance is income minus them. |
| DashboardEarly.MetricsIgnoreFuture | scripts/Dashboard.js:40-42 | A future expense never changes these totals. This balance exceeds the later one by the future total. |
| DashboardEarly.RecentTransactionsLaws | scripts/Dashboard.js:66-69 | At most ten items, newest first, each a revenue or normal expense (never a future one). None left out is newer than one shown. |
| DashboardEarly.Window | scripts/Dashboard.js:201-206 | Six months, oldest first: the five before today's month, then today's month. |
| DashboardEarly.WindowDistinct | scripts/Dashboard.js:201-206 | The six months are distinct and the last is today's month. |
| DashboardEarly.WindowMembership | scripts/Dashboard.js:209-224 | A record has a bucket exactly when its month lies at most five months back from today's. |
| DashboardEarly.GroupByMonth | scripts/Dashboard.js:197-231 | The labels are the window. Each value is the sum of that month's revenues or normal expenses. |
| DashboardEarly.UpdateCategoryChart | scripts/Dashboard.js:233-252 | The chart is exactly the top categories of the normal expenses: min(10, number of categories) distinct categories, largest first, each with its sum. A category left out sums to no more than any category shown. |
| Reports.Block | relatorios.js:72-81 | A quarter starts on 1 January, April, July or October, a semester on 1 January or July. The block ends on the last day of its `len`-th month, and today falls inside it. |
| Reports.PeriodBounds | relatorios.js:63-84 | Bounds exist exactly for month, year, quarter and semester: the month of today from its first to its last day, January 1 to December 31, or the quarter or semester block. |
| Reports.MonthBounds | relatorios.js:64-67 | The two JavaScript date calls of the month case give the first and the last day of today's month. |
| Reports.YearBounds | relatorios.js:68-71 | The two JavaScript date calls of the year case give January 1 and December 31 of today's year. |
| Reports.PeriodHoldsToday | relatorios.js:63-84 | Each period's bounds are valid dates, start on a first day and hold today. |
| Reports.HandlePeriodChange | relatorios.js:44-91 | `custom` and unknown periods leave the date inputs alone; known ones set both inputs; the handler never throws. |
| Reports.Days | relatorios.js:239-247 | One bucket per day from start to end, ascending and distinct, or none when either bound is not a date. |
| Reports.GroupByDate | relatorios.js:237-270 | The days of the `while` loop are exactly `Days`. Each bar sums the records whose date equals that day. |
| Reports.DailySumsAddUp | relatorios.js:250-263 | For records inside the period, the bars add up to the total. |
| Reports.GuardedPercent | relatorios.js:201-211 | The cell is a ratio over the total exactly when the total is positive, and '0' otherwise. |
| Reports.GuardedRowsLaws | relatorios.js:171-235 | The rows list each category once, with its sum. The sums add up to the total. The percentages are over that total when it is positive, and all '0' otherwise. |
| Reports.TableLaws | relatorios.js:175-177 | The balance is income minus expenses, and each half's rows sum to its total. |
| Reports.UpdateTable | relatorios.js:171-235 | The method builds exactly that table. |
| Reports.ReportConsistent | relatorios.js:93-108 | The bars of a report add up to its table's totals. The expense total counts normal and future expenses in the period. |
| Reports.GenerateReport | relatorios.js:93-108 | With either date input empty, nothing is read or shown. Otherwise the report holds the period's records, its bars and its table. |
| ReportsEarly.HandlePeriodChangeEarly | scripts/relatorios.js:38-68 | `custom` keeps the dates and known periods set them. Any other value throws a `TypeError`. |
| ReportsEarly.PeriodChangeRevisions | scripts/relatorios.js:42-64 | The two revisions agree except where this one throws, and there the later one keeps the dates. |
| ReportsEarly.UnguardedPercent | scripts/relatorios.js:182-192 | A non-zero total gives a ratio. A zero total gives NaN for a zero amount and an infinity otherwise. |
| ReportsEarly.TableRevisions | scripts/relatorios.js:154-214 | With positive totals both revisions show the same table; with a zero income total every income cell is NaN or an infinity; with a negative total this one shows a ratio where the later shows '0'. |
| ReportsEarly.UpdateTableEarly | scripts/relatorios.js:154-214 | The method builds this revision's table. |
| ReportsEarly.GenerateReportEarly | scripts/relatorios.js:70-84 | The same guard and queries as the later revision, with this revision's table. |
| Forms.Validate | despesas.js:181-194 | No rejection exactly when the trimmed description and category are non-empty, the date is set and the amount is a positive number. A negative amount gives the second alert. |
| Forms.OriginalKind | receitas.js:187-191 | The type of the first stored record with the id, or `fixed` when none has it. |
| Forms.PatchKeepsStored | despesas.js:199-206 | An edit carrying the type the lookup finds leaves every record's type unchanged, and a field the patch does not carry keeps its stored value on every record. |
| Forms.KindLists | receitas.js:32-72 | The two lists hold exactly the `fixed` and the `variable` records. |
| Forms.KindSplit | receitas.js:32-72 | No record is on both lists, and one of another type is on neither. When every type is fixed or variable, the lists cover all records and their amounts. |
| Forms.FormatPaymentMethod | despesas.js:241-250 | The five codes map to their labels; any other text passes through. |
| Forms.FormatIdempotent | despesas.js:241-250 | Formatting twice is formatting once. |
| ExpenseForm.ExpenseLists | despesas.js:47-92 | The lists hold exactly the expenses not marked future whose type is `fixed`, or `variable`. |
| ExpenseForm.EditTarget | despesas.js:122-128 | `editExpense` finds a record with the id that is not marked future, or reports none when no such record exists. |
| ExpenseForm.EditTargetIsNormalLookup | despesas.js:124 | That lookup is the id search over the normal expenses only. |
| ExpenseForm.HandleExpenseSubmit | despesas.js:176-239 | A rejection exactly when the checks fail, and then nothing is stored. With an id: an update that keeps the stored type (`fixed` if absent), with the outcome of whether it was found. Without one: a new trimmed expense, marked `isFuture: false`, is appended. |
| ExpenseForm.StoreExpense | despesas.js:199-224 | The store calls of a submit that passed its checks. |
| ExpenseForm.SubmitLaws | despesas.js:208-218 | A saved expense has a positive amount, trimmed non-blank text and `isFuture: false`. Adding or merging it keeps normal and future expenses apart. |
| ExpenseForm.EditUnchanged | despesas.js:130-224 | Opening an expense this form saved and submitting it unchanged passes the checks and leaves the document as it was. |
| ExpenseForm.EditFormRebuilds | despesas.js:138-218 | The filled-in form passes the checks and rebuilds the stored expense, all but the `local` field this form never writes. |
| ExpenseForm.EditFormPasses | despesas.js:138-194 | The form filled in from an expense with a positive amount and a non-blank description and category passes both checks. |
| ExpenseForm.MergeBack | data/storage.js:91-100 | Merging a stored expense with its own fields changes nothing. |
| ExpenseFormEarly.ExpenseListsEarly | scripts/despesas.js:32-67 | The lists are exact type filters of all stored expenses. |
| ExpenseFormEarly.ListsRevisions | despesas.js:47 | The later lists are these without the records marked future. |
| ExpenseFormEarly.HandleExpenseSubmitEarly | scripts/despesas.js:122-175 | Same checks as the later revision. On edit it keeps the stored type and writes the payment method, place and notes but no future flag; the add marks the expense normal. |
| ExpenseFormEarly.GetOriginalExpenseType | scripts/despesas.js:178-182 | The stored type of the first expense with the id, or `fixed`; the document is unchanged. |
| ExpenseFormEarly.SubmitKeepsPartition | scripts/despesas.js:143-163 | An edit keeps every stored type and future flag. Both the edit and the add keep normal and future expenses apart. |
| RevenueForm.RevenueLists | receitas.js:19-72 | The lists hold exactly the revenues of type `fixed`, or `variable`. |
| RevenueForm.HandleRevenueSubmit | receitas.js:126-184 | A rejection exactly when the checks fail, and then nothing is stored. With an id: an update keeping the stored type. Without one: a new trimmed revenue with notes is appended. |
| RevenueForm.GetOriginalRevenueType | receitas.js:187-191 | The type of the first stored revenue with the id, or `fixed`; the document is unchanged. |
| RevenueForm.SavedRevenue | receitas.js:148-160 | A saved revenue has a positive amount and trimmed, non-blank description and category. |
| RevenueForm.EditKeepsStored | receitas.js:155-165 | An edit keeps every stored type, and the fields this form never writes keep their stored values. |
| RevenueFormEarly.NewRevenueEarly | scripts/receitas.js:126-133 | The category is never empty (`Outros` stands in), and an empty date is stored as no date at all. |
| RevenueFormEarly.HandleRevenueSubmitEarly | scripts/receitas.js:123-148 | No checks: with an id, update; without one, append. |
| RevenueFormEarly.EditRevisions | scripts/receitas.js:126-133 | This revision's edit stores the form's type and keeps the stored notes; the later edit keeps the stored type. |
| FutureForm.HandleFutureExpenseSubmitAsWritten | scripts/futuras.js:108-142 | Rejected exactly when a field is falsy; a negative amount passes. Without an id, a future expense marked true is appended. With an id, `updateExpense` searches the normal expenses. |
| FutureForm.EditLostAsWritten | scripts/futuras.js:127-129 | As written, the edit of a future expense changes nothing. When a normal expense shares the id, that one is overwritten and marked future while on the normal list. |
| FutureForm.EditLostExample | scripts/futuras.js:127-129 | A stored future expense `"1"` edited from 100 to 250: the normal list has no match, while the future-list update stores 250. |
| FutureForm.HandleFutureExpenseSubmit | scripts/futuras.js:108-142 | As intended, an edit updates the future expense with that id. |
| FutureForm.EditLaws | scripts/futuras.js:112-120 | The corrected edit stores every form field on that future expense, leaves the other lists untouched and keeps normal and future expenses apart. |
| FutureForm.ExpenseStatus | scripts/futuras.js:151-160 | `overdue` exactly for a valid date before today. `upcoming` exactly from today to seven days ahead. `future` exactly after that or for a non-date. |
| FutureForm.StatusAgrees | scripts/futuras.js:162-173 | The text starts with "Vencida" exactly when the status is overdue. It reads "Vence hoje" exactly on the due day and "Vence amanhã" exactly the day before. |
| FutureForm.DaysTextInjective | scripts/futuras.js:168-172 | Different day differences give different texts. |
| FutureForm.StatusTextInjective | scripts/futuras.js:162-173 | Two valid due dates with the same text are the same date. |
| FutureForm.InsertionSort | scripts/futuras.js:40 | The array is sorted in place, ascending by the key, and is a permutation of what it held. |
| FutureForm.SortByDate | scripts/futuras.js:40 | The list is sorted by due date in place, earliest first, and is a permutation of what it held. |
| Accounts.WithoutPassword | js/auth.js:100 | The session record carries every field of the user except the password. |
| Accounts.LoginIndex | js/auth.js:96-98 | The first user matching both email and password, or -1 exactly when none does. |
| Accounts.RegisterKeepsUnique | js/auth.js:50-75 | Registering an unused email keeps emails unique. |
| Accounts.RegisterThenLogin | js/auth.js:59-103 | A newly registered user can log in with those credentials and is found at its own record. |
| Accounts.LoginUnique | js/auth.js:93-103 | With unique emails, a login succeeds only as the holder of that email, and only with that user's password. |
| Accounts.ChangePasswordKeepsAccounts | js/auth.js:177-194 | A password change keeps every id and email, so emails stay unique; only that user's record differs. |
| Accounts.Auth.constructor | js/auth.js:5-13 | A new `Auth` adopts the stored session only when its user still exists. |
| Accounts.Auth.CheckAuthState | js/auth.js:16-33 | True exactly when the session's user id is in the list. A session whose user has gone is logged out. |
| Accounts.Auth.Register | js/auth.js:45-91 | Fails exactly when the email is taken, leaving the list as it was. Otherwise it appends one user, with the name defaulting to ''. The session is unchanged. |
| Accounts.Auth.Login | js/auth.js:93-127 | Succeeds exactly when some user matches both credentials. The session and the current user become that user without the password. A failure changes nothing. |
| Accounts.Auth.Logout | js/auth.js:129-136 | Both the session and the current user are cleared. |
| Accounts.Auth.IsLoggedIn | js/auth.js:138-141 | True exactly when there is a current user. |
| Accounts.Auth.SaveUserFinancialData | js/auth.js:157-175 | False, with nothing changed, when there is no current user or the user is not found. Otherwise only that user's `financialData` is replaced. |
| Accounts.Auth.ChangePassword | js/auth.js:177-194 | Only the current user's password changes, and only when the given current password matches. Otherwise the result is false and the list is unchanged. |

## Left out

- The DOM, HTML templates, modals, Chart.js, `exportToPDF` and printing, `alert`, `confirm` and console logging: these
  are user interface and foreign libraries. Form inputs are parameters, and an alert is a `Rejected` outcome.
- `localStorage` and `JSON.parse`/`stringify`: these are the fields of `DataStorage.Storage`, with a parse failure as
  `Garbage` or `Unreadable`. A session user object without an `id` field is not modelled.
- `Date.now()` ids and the wall clock `new Date()`: they are the parameters `freshId` and `today`.
- Time zones: `new Date("YYYY-MM-DD")` (UTC midnight), `toISOString` and the local-time `new Date()` are not
  modelled. Day arithmetic is exact in days. The millisecond difference and `Math.ceil` in scripts/futuras.js are
  modelled as the exact day difference.
- Floating point: amounts are integers, and a percentage is the exact ratio `amount / total` before `toFixed(1)`.
- `Intl.NumberFormat` and `toLocaleDateString('pt-BR')`: a month label is the `(year, month)` key, with one key for
  all unparsable dates.
- Dashboard.DateKey: puts an unparsable date at day 0. JavaScript's comparator returns `NaN` there, which makes the
  sort order implementation-defined.
- Aggregates.CategoryTotals: keeps categories in first-insertion order. JavaScript objects list integer-like keys
  (such as a category named "10") first, in numeric order; that reordering is not modelled.
- Aggregates.CategoryTotals: sums every category name the same way. In the source (js/dashboard.js:372-375,
  scripts/Dashboard.js:237-240, relatorios.js:276-279, scripts/relatorios.js:255-258) a category typed as the name of
  an `Object.prototype` member (`constructor`, `toString`, `valueOf`, ...) reads the inherited function, which is
  truthy, so `+=` concatenates the amount to its text; and `__proto__` loses the category, because its setter ignores
  a number. Categories are free text, so these inputs are reachable; `Aggregates.Bump` and
  `Aggregates.GroupByCategory` share this simplification.
- Forms.FormatPaymentMethod: a code that names an `Object.prototype` member (such as `toString`) would return that
  member in JavaScript; the model passes any unknown text through.
- FutureForm.SortByDate: does not state stability. The model sorts with an insertion sort, and the source's
  `Array.prototype.sort` is stable, but the ensures only states ascending order and permutation.
- RevenueFormEarly.HandleRevenueSubmitEarly: requires a numeric amount. This earlier form stores `NaN` amounts
  unchecked, and `NaN` is not an integer.
- RevenueFormEarly.NewRevenueEarly: stores an empty date input as the invalid date `Date(0, 0, 0)`. The source keeps
  the empty string; both are dates no comparison accepts.
- Forms.Validate: the `isNaN(amount)` test of despesas.js:191 and receitas.js:143 is not modelled separately. The
  falsy test before it has already rejected `NaN`, so both revisions share one check.
- `fillFutureExpenseForm` (scripts/futuras.js:99-106), `getCurrentUser` and `getUserFinancialData`: these only copy
  fields into the DOM or return a field.
- `saveUsers`/`getUsers` in js/auth.js: the `users` field stands for the stored list.
- The `currentUser` entry is one browser entry read by both data/storage.js and js/auth.js. The model keeps it twice,
  as `DataStorage.Storage.session` and as `Accounts.Auth.marker`, and nothing relates the two: a login or logout
  through `Auth` is not shown to change what `Storage` reads.
- scripts/app.js as a whole: it is page navigation and a constant sample document.
- Password security: passwords are compared by equality only.

## Findings

| source | as written | input that shows it | evidently intended | confidence | as-written member | corrected member |
|---|---|---|---|---|---|---|
| scripts/futuras.js:127-129 | An edit of a future expense calls `Storage.updateExpense`, which searches only the normal `expenses` list. No caller in the file passes `editData` to `openFutureExpenseModal` (scripts/futuras.js:16 and 68 call it with none), so the edit path needs the `expenseId` input to have been set some other way: the defect is latent, not reachable from the future list as it stands. | The future list holds expense "1" (amount 100) and the form edits it to 250. `updateExpense` finds no match and returns false, so nothing is saved. If a normal expense has id "1", that one is overwritten and marked `isFuture: true`. | Call `Storage.updateFutureExpense`, so the future expense takes 250 and the normal list is untouched. | not executed | FutureForm.HandleFutureExpenseSubmitAsWritten | FutureForm.HandleFutureExpenseSubmit |
