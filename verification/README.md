# Personal Finance Manager — a verified model of the ledger core

The Personal Finance Manager is a single-user console ledger. It keeps:

- income and expense **transactions**;
- a monthly **budget**: a limit per category, plus the year-month it applies to;
- **savings goals**;
- **categories**: built-in lists, plus custom names the user adds.

It stores all three kinds of record in comma-joined text files, one record per line, each file starting with a header line. It prints reports from the data: monthly, yearly, a quick summary, per-category breakdowns, budget against spending, and a month-by-month trend table.

This project models the ledger's core in Dafny and proves properties of that model. Printing, prompting and file handles are removed from the model.

The modules follow the program's classes:

| module | file | models |
|---|---|---|
| `Transactions` | transaction.dfy | `Transaction`: the record, its id counter, its line encoder and decoder |
| `Budgets` | budget.dfy | `Budget`: the class with its limit map and month, the queries, the line writer |
| `SavingsGoals` | savings_goal.dfy | `SavingsGoal`: the class, progress arithmetic, the time-remaining phrase, the line codec |
| `Categories` | category.dfy | `Category`: the built-in lists and the custom-name registry |
| `Reports` | reports.dfy | `ReportGenerator`: filters, totals, grouping, breakdown, budget comparison, trends, whole reports |
| `DataStore` | data_manager.dfy | `DataManager`: the load and save logic, over sequences of lines |
| `Session` | finance_manager.dfy | `FinanceManager`: the session state and its commands, views and statistics |
| `Ids` | ids.dfy | the static `nextId` counters, as objects |
| `Text`, `Money`, `Dates` | text.dfy, money.dfy, dates.dfy | the Java library behaviour the code relies on: `Integer.parseInt`, `String.split`/`trim`/`toUpperCase`/`equalsIgnoreCase`/`replace`, `%.2f`, `Double.toString`/`parseDouble`, `LocalDate`/`YearMonth` parsing and formatting |
| `Sums`, `Wrappers` | sums.dfy, wrappers.dfy | sums over maps; `Option`/`Result` and a sequence map |

## Modelling choices

**Values and units**

- Money is a whole number of cents (`int`).
- Percentages and required savings are `real`.
- A date is a `(year, month, day)` value restricted to days that exist in years 1 to 9999. A year-month is a `(year, month)` value.

**Objects and state**

- `Transaction` is a value: after construction the core never changes one in place.
- `Budget`, `SavingsGoal`, the category registry and the two id counters are classes, because the program updates their fields in place.
- The static `nextId` of `Transaction` and of `SavingsGoal`, and the static custom-category list, become objects that the session owns (`Ids.IdCounter`, `Categories.CategoryRegistry`).

**Reading a line.** Each line has one of three outcomes:

- **Parsed**: the line decodes to a record.
- **Skipped**: the decoder returns `null` because there are too few comma fields, and the line is dropped.
- **Malformed**: a number or date on a line with enough fields throws. The loaders catch only `IOException`, so this exception ends the whole load. The model reports it as an error that names the line.

**Inputs.** The console input of a command becomes its parameters. The current date is a parameter wherever the code reads the clock.

## Model

| member | source | states |
|---|---|---|
| Ids.CounterAfterRestore | src/Transaction.java:65-69 | after a decode the counter exceeds both the restored id and its old value, and it is one of old+1 or id+1 |
| Ids.IdCounter.Allocate | src/Transaction.java:16 | hands out the current value and advances the counter by exactly one |
| Ids.IdCounter.Restore | src/Transaction.java:67-69 | moves the counter to id+1 when id has reached it and otherwise leaves it, so it ends strictly past the id and never goes back |
| Ids.IdCounter.constructor | src/Transaction.java:7 | a counter starts at 1 |
| Transactions.Create | src/Transaction.java:15-22 | the new transaction takes the counter's value as id, stores the upper-cased type and the other fields as given, and the counter grows by exactly one |
| Transactions.SetAmount | src/Transaction.java:37 | changes the amount and no other field (id and type included) |
| Transactions.SetCategory | src/Transaction.java:38 | changes the category and no other field |
| Transactions.SetDescription | src/Transaction.java:39 | changes the description and no other field |
| Transactions.SetDate | src/Transaction.java:40 | changes the date and no other field |
| Transactions.ParseCsvLine | src/Transaction.java:55-73 | a line is skipped (null) exactly when it splits into fewer than six fields; it throws exactly when it has six and the id, the amount or the date does not parse; a decoded record has an `int` id and an upper-case type |
| Transactions.DecodeFields | src/Transaction.java:57-72 | fewer than six fields give null; six or more throw exactly when field 0, 2 or 5 does not parse; otherwise each field of the record is the parse of its column, the type upper-cased |
| Transactions.FromCsvString | src/Transaction.java:55-73 | decodes as ParseCsvLine does; on success the counter ends past both its old value and the restored id, otherwise it is unchanged |
| Transactions.ToCsvString | src/Transaction.java:49-53 | for comma-free text the line splits back into exactly the six fields id, type, amount, category, description, date, in that order |
| Transactions.ParseIgnoresExtraFields | src/Transaction.java:57-63 | comma-free fields after the sixth do not change what the line decodes to |
| Transactions.SplitEncodedFields | src/Transaction.java:56 | splitting an encoded line with extra fields gives the six fields first, in order |
| Transactions.DecodeOfFields | src/Transaction.java:57-70 | six encoded fields, followed by anything, decode to the original record |
| Transactions.RoundTrip | src/Transaction.java:49-70 | decoding the encoded line restores every field, id included, for comma-free text, an `int` id and an upper-case type |
| Transactions.EmptyDescriptionSurvives | src/Transaction.java:49-63 | an empty description is an interior field and the line still decodes to the same record |
| Transactions.NoCommaInNumbers | src/Transaction.java:50-52 | the id, the `%.2f` amount and the date text contain no comma, and the date field is never empty |
| Budgets.Budget.constructor | src/Budget.java:12-15 | a new budget is for the given month and holds no limits |
| Budgets.Budget.SetBudget | src/Budget.java:21-25 | stores the limit exactly when it is non-negative; other categories and the month are untouched; every stored limit stays non-negative |
| Budgets.Budget.SetBudgetMonth | src/Budget.java:43-45 | replaces the month and keeps every limit |
| Budgets.Budget.GetBudget | src/Budget.java:27-29 | the stored limit, or 0 for a category without one; never negative in a valid budget |
| Budgets.Budget.HasBudget | src/Budget.java:47-49 | holds exactly when the category's limit is positive |
| Budgets.Budget.RemainingBudget | src/Budget.java:51-54 | equals max(0, limit − spent): never negative, and either 0 or exactly limit − spent |
| Budgets.Budget.UsagePercentage | src/Budget.java:56-60 | 0 without a limit; otherwise spent/limit·100 when below 100, and 100 only when that ratio reaches 100; within [0, 100] for non-negative spending |
| Budgets.Budget.IsOverBudget | src/Budget.java:62-64 | holds exactly when spending is strictly above the limit |
| Budgets.Budget.IsNearBudgetLimit | src/Budget.java:66-70 | never holds without a limit; otherwise holds exactly when spent ≥ threshold·limit |
| Budgets.Budget.TotalBudget | src/Budget.java:35-37 | the loop over the entries yields the sum of all stored limits, which is non-negative |
| Budgets.Budget.ToCsvLines | src/Budget.java:83-91 | one `month,category,amount` line per entry, each with the current month, in an order that lists every category exactly once |
| Budgets.EntryLines | src/Budget.java:85-89 | one line per category of the given order, line k for category k |
| Budgets.OverBudgetWithoutEntry | src/Budget.java:47-64 | with no entry, any positive spending is over budget although `hasBudget` is false |
| Budgets.OverBudgetIsNear | src/Budget.java:62-70 | over a positive limit implies near it, for any threshold up to 1 |
| Budgets.NothingRemainsIffSpent | src/Budget.java:51-60 | nothing remains exactly when spending reaches the limit, and usage is then 100 |
| SavingsGoals.SavingsGoal.constructor | src/SavingsGoal.java:16-24 | a new goal takes the next id from the goal counter, has nothing saved, starts today and keeps the given fields; the counter grows by one |
| SavingsGoals.SavingsGoal.AddToSavings | src/SavingsGoal.java:47-51 | adds the amount exactly when it is positive, never lowers the saved amount, and changes no other field |
| SavingsGoals.SavingsGoal.SetCurrentAmount | src/SavingsGoal.java:42 | stores max(0, amount) and changes no other field |
| SavingsGoals.SavingsGoal.RemainingAmount | src/SavingsGoal.java:53-55 | equals max(0, target − current) |
| SavingsGoals.SavingsGoal.IsGoalAchieved | src/SavingsGoal.java:62-64 | holds exactly when nothing remains |
| SavingsGoals.SavingsGoal.ProgressPercentage | src/SavingsGoal.java:57-60 | 0 for a zero target; otherwise current/target·100 when below 100, and 100 only when that ratio reaches 100; non-negative for a positive target and non-negative savings |
| SavingsGoals.SavingsGoal.RequiredMonthlySavings | src/SavingsGoal.java:74-80 | the whole remainder when no days remain; otherwise the remainder spread over days/30 months |
| SavingsGoals.SavingsGoal.RequiredWeeklySavings | src/SavingsGoal.java:82-88 | the whole remainder when no days remain; otherwise the remainder spread over days/7 weeks |
| SavingsGoals.MonthlyAtMostRemaining | src/SavingsGoal.java:74-80 | with a month or more left, the monthly figure is at most the remainder |
| SavingsGoals.MonthlyIsThirtySeventhsOfWeekly | src/SavingsGoal.java:74-88 | with days ahead, seven months' figures equal thirty weeks' figures |
| SavingsGoals.TimeLeftOf | src/SavingsGoal.java:90-110 | the bucket is passed, today, days (1–29), months (30–364) or years (365 on), each holding exactly its range of days; the months are the whole 30-day spans, the years the whole 365-day spans and the months those of the days left over |
| SavingsGoals.TwelveMonthPhrases | src/SavingsGoal.java:101-108 | 360 to 364 days read as 12 months, and a year and 360 days as 1 year, 12 months |
| SavingsGoals.Counted | src/SavingsGoal.java:101-108 | the number and its unit, which takes an "s" exactly when the number is more than 1 |
| SavingsGoals.Phrase | src/SavingsGoal.java:92-109 | the fixed words for passed and today, and otherwise the counted days, months, or years followed by their months only when there are some |
| SavingsGoals.YearsPhrase | src/SavingsGoal.java:104-108 | the counted years, then ", " and the counted months only when there are some, then " remaining" |
| SavingsGoals.TimeRemainingText | src/SavingsGoal.java:90-110 | the phrase for every range of days: passed, today, n day(s), days/30 month(s), and days/365 year(s) with (days%365)/30 month(s) added only when at least 30 days are left over |
| SavingsGoals.DecodeGoalFields | src/SavingsGoal.java:131-153 | fewer than six fields give null; six or more throw exactly when the id, an amount or a date does not parse; otherwise each field is the parse of its column and the description is the seventh field with `;` turned back into `,`, or empty when there is none |
| SavingsGoals.FromCsvString | src/SavingsGoal.java:131-153 | builds a fresh goal with the decoded fields, and the counter ends past both its old value and the restored id; a line that does not decode leaves the counter alone |
| SavingsGoals.SplitGoalFields | src/SavingsGoal.java:125-132 | the joined goal fields split into six when the description is empty, and into all seven otherwise |
| SavingsGoals.EncodeGoal | src/SavingsGoal.java:125-129 | for a comma-free name the line splits back into the seven written fields, or the first six when the description is empty |
| SavingsGoals.SavingsGoal.ToCsvString | src/SavingsGoal.java:125-129 | the goal's line reads back as the goal's own field values |
| SavingsGoals.ParseGoalLine | src/SavingsGoal.java:131-153 | a line is skipped (null) exactly when it splits into fewer than six fields; it throws exactly when it has six and the id, an amount or a date does not parse; a decoded goal has an `int` id and a `;`-free description |
| SavingsGoals.NoCommaInGoalFields | src/SavingsGoal.java:125-129 | no written field holds a comma, and the `;` escape of the description reverses |
| SavingsGoals.DecodeOfGoalFields | src/SavingsGoal.java:132-146 | the written fields decode to the original record |
| SavingsGoals.RoundTrip | src/SavingsGoal.java:125-153 | decoding the encoded goal restores every field, for a comma-free name and a `;`-free description |
| SavingsGoals.SemicolonComesBackAsComma | src/SavingsGoal.java:128-140 | a `;` typed into a description comes back as a `,` |
| Categories.WithCustom | src/Category.java:44-50 | the name is appended exactly when it is new to the custom list and to both built-in lists; otherwise the list is unchanged |
| Categories.WithCustomKeepsWellFormed | src/Category.java:44-50 | the custom list keeps no duplicates and no built-in names |
| Categories.WithCustomIdempotent | src/Category.java:44-50 | adding the same name twice is the same as adding it once |
| Categories.CategoryRegistry.constructor | src/Category.java:32 | the custom list starts empty |
| Categories.CategoryRegistry.ExpenseCategories | src/Category.java:34-38 | the ten built-in expense names followed by the custom names |
| Categories.CategoryRegistry.IncomeCategories | src/Category.java:40-42 | the six built-in income names only |
| Categories.CategoryRegistry.AddCustomCategory | src/Category.java:44-50 | the custom list becomes WithCustom of the old list and stays well formed |
| Categories.CategoryRegistry.IsValidCategory | src/Category.java:52-59 | for type EXPENSE (any case), built-in expense or custom; for INCOME, built-in income; false for any other type |
| Categories.CategoryRegistry.CategoryByIndex | src/Category.java:71-79 | entry index−1 exactly when 1 ≤ index ≤ size, null otherwise; the EXPENSE menu is chosen when the type is EXPENSE in any case, the income menu otherwise |
| Categories.BuiltInsWellFormed | src/Category.java:9-30 | the built-in names are distinct and the two built-in lists share none |
| Categories.PickedCategoryIsValid | src/Category.java:52-79 | a name picked by number is valid for the type it was picked for |
| Categories.MenuSizes | src/Category.java:34-42 | the expense menu has ten entries plus one per custom name; the income menu has six |
| Reports.ForMonth | src/ReportGenerator.java:150-154 | the month selection is no longer than the list and every transaction in it is dated in the month |
| Reports.ForYear | src/ReportGenerator.java:156-160 | the year selection is no longer than the list and every transaction in it is dated in the year |
| Reports.ForMonthMembers | src/ReportGenerator.java:150-154 | the month filter keeps exactly the transactions dated in the month |
| Reports.ForYearMembers | src/ReportGenerator.java:156-160 | the year filter keeps exactly the transactions dated in the year |
| Reports.ForMonthAppend | src/ReportGenerator.java:150-154 | the month filter works piece by piece and keeps the original order |
| Reports.MonthWithinYear | src/ReportGenerator.java:150-160 | the month's selection taken from its year's selection is the month's selection |
| Reports.TotalIncome | src/ReportGenerator.java:162-167 | the INCOME total plus the total of every other type is the total of all amounts |
| Reports.TotalExpenses | src/ReportGenerator.java:169-174 | the EXPENSE total plus the total of every other type is the total of all amounts |
| Reports.KindsPartition | src/ReportGenerator.java:162-174 | one type's total plus the total of every other type is the total of all amounts |
| Reports.IncomeAndExpensesPartition | src/ReportGenerator.java:162-174 | with only INCOME and EXPENSE types present, income plus expenses is the whole total, and non-income is exactly the expenses |
| Reports.YearIsSumOfMonths | src/ReportGenerator.java:156-174 | a type's total over a year is the sum of its totals over the year's twelve months |
| Reports.MonthsTotalStep | src/ReportGenerator.java:156-174 | a further transaction moves the months' total by its amount exactly when it falls in one of them |
| Reports.KindInMonthStep | src/ReportGenerator.java:150-174 | a further transaction moves its own month's totals by its amount and leaves other months alone |
| Reports.TotalOfKindAppend | src/ReportGenerator.java:162-174 | type totals add over concatenation |
| Reports.ExpensesByCategory | src/ReportGenerator.java:72-77 | each category's entry, 0 when absent, is that category's summed EXPENSE amount |
| Reports.ExpensesByCategoryGroups | src/ReportGenerator.java:72-77 | the grouping has a key exactly for each category with an EXPENSE, holding that category's summed spending |
| Reports.GroupsSumToTotal | src/ReportGenerator.java:72-80 | the category sums add up to the total expenses |
| Reports.FirstSeenEnumerates | src/ReportGenerator.java:72-77 | each category with an expense is listed exactly once |
| Reports.Percent | src/ReportGenerator.java:85 | part/whole·100, or 0 when the whole is not positive |
| Reports.RowsFor | src/ReportGenerator.java:82-88 | one breakdown row per category of the order, with its sum and percentage |
| Reports.InsertDescendingPermutes | src/ReportGenerator.java:83 | inserting adds exactly the one row |
| Reports.InsertDescendingSorted | src/ReportGenerator.java:83 | inserting keeps rows in descending order of amount |
| Reports.SortDescendingSorted | src/ReportGenerator.java:83 | the sort gives a descending permutation of its input |
| Reports.SortKeepsRows | src/ReportGenerator.java:82-88 | the sort keeps the same rows and their number |
| Reports.UnsortedBreakdown | src/ReportGenerator.java:72-88 | one row per category with expenses, holding its sum and its share of total expenses |
| Reports.CategoryBreakdown | src/ReportGenerator.java:69-89 | rows in descending order of amount, one per category with expenses, each with its summed spending and its percentage of the total expenses |
| Reports.RowsTotalSort | src/ReportGenerator.java:82-88 | sorting keeps the sum of the rows |
| Reports.BreakdownSumsToExpenses | src/ReportGenerator.java:72-88 | the breakdown rows add up to the total expenses |
| Reports.BudgetComparison | src/ReportGenerator.java:91-116 | nothing unless the budget is for the month; otherwise one row per budgeted category with limit, actual spending (0 by default), remaining = limit − actual (possibly negative) and the percentage (0 for a zero limit) |
| Reports.ComparisonAgreesWithBudget | src/ReportGenerator.java:105-112 | a row shows a negative remainder exactly when the budget counts the category as over; the budget's own remainder and usage are the row's, clamped |
| Reports.TrendRowsFigures | src/ReportGenerator.java:136-147 | every trend row is a month of the year with positive income or expenses, showing its income, its non-income total and their difference |
| Reports.TrendRowsOrdered | src/ReportGenerator.java:136 | the trend rows run through the months in increasing order |
| Reports.TrendRowsComplete | src/ReportGenerator.java:136-147 | every month of the year with positive income or non-income total has a row |
| Reports.TrendRows | src/ReportGenerator.java:118-148 | one row per month of the year with positive income or outgoings, in increasing month order, each showing its income, outgoings and their difference |
| Reports.TrendStep | src/ReportGenerator.java:124-131 | a further transaction moves its own month's income (if INCOME) or outgoings (any other type) by its amount |
| Reports.TallyIncomeStep | src/ReportGenerator.java:126-127 | merging an INCOME amount into its month keeps the per-month tallies exact |
| Reports.TallyOutgoingStep | src/ReportGenerator.java:128-129 | merging any other amount into the expenses of its month keeps the tallies exact |
| Reports.TallyMonths | src/ReportGenerator.java:121-131 | the one-pass loop leaves in each map, per month, the month's income and its non-income total |
| Reports.MonthlyTrends | src/ReportGenerator.java:118-148 | the loop over months 1 to 12 yields the trend table |
| Reports.TrendsOfYearSelection | src/ReportGenerator.java:49-65 | filtering the year first, as the yearly report does, does not change the trend table |
| Reports.MonthlyReportOf | src/ReportGenerator.java:18-41 | income, expenses, breakdown and comparison are those of the month's selection; net is income − expenses; the warning shows exactly when income < expenses; the breakdown sums to the expenses; the comparison appears exactly when the budget is for the month |
| Reports.YearlyReportOf | src/ReportGenerator.java:43-67 | income, expenses and breakdown are those of the year's selection; net is income − expenses; the savings rate appears exactly when income is positive and is net/income·100; the trend table is the year's; the breakdown sums to the expenses |
| Reports.QuickSummary | src/ReportGenerator.java:176-192 | income and expenses are those of the current month's selection; the balance is income − expenses and the tip shows exactly when it is negative |
| Reports.SummaryMatchesMonthlyReport | src/ReportGenerator.java:176-182 | the quick summary shows the monthly report's income, expenses and net for the same month |
| Reports.JanuaryScenario | src/ReportGenerator.java:18-89 | a 100.00 food expense and a 500.00 salary in one month give net 400.00 and a single breakdown row at 100% |
| DataStore.AfterHeader | src/DataManager.java:47-53 | the first line is passed over whatever it holds, and every later line is parsed |
| DataStore.TransactionResults | src/DataManager.java:47-55 | the transaction file's header is passed over and each later line is decoded |
| DataStore.GoalResults | src/DataManager.java:144-152 | the goal file's header is passed over and each later line is decoded |
| DataStore.BudgetResults | src/DataManager.java:92-101 | the budget file's header is passed over and each later line is decoded |
| DataStore.CollectSucceedsIff | src/DataManager.java:49-64 | a load succeeds exactly when no line throws, and a failure names the first line that does |
| DataStore.CollectKeepsParsedInOrder | src/DataManager.java:55-58 | a successful load keeps exactly the decoded lines, in file order |
| DataStore.CollectStopsAtError | src/DataManager.java:49-64 | once a line has thrown, later lines are never read |
| DataStore.CollectMalformed | src/DataManager.java:55-64 | a line that throws ends the whole load with its index |
| DataStore.CollectSkipped | src/DataManager.java:55-58 | a null line is dropped and the load goes on |
| DataStore.LoadedTransactions | src/DataManager.java:37-69 | a missing file gives no transactions; a file loads exactly when no line after the header throws, and a failure names such a line |
| DataStore.ValuesOfParsed | src/DataManager.java:47-58 | a header followed by lines that all decode loads exactly their values |
| DataStore.RestoreAll | src/Transaction.java:67-69 | after restoring a sequence of ids the counter is past every one of them and not below its start |
| DataStore.CounterAheadOfLoaded | src/Transaction.java:67-69 | after a load the counter is past every loaded id, so a new record never reuses one |
| DataStore.RestoreTransactionStep | src/DataManager.java:55-58 | loading one more transaction moves the counter past its id as well |
| DataStore.ReadTransactionLine | src/DataManager.java:55-58 | one line after the header: a decoded transaction is appended and the counter moved past its id; a throwing line stops the load at its index |
| DataStore.LoadTransactions | src/DataManager.java:37-69 | the loop gives what the file's lines give (empty for a missing file, the first throwing line's index on failure), and moves the counter past every loaded id |
| DataStore.TransactionLines | src/DataManager.java:28-30 | one encoded line per transaction, in list order |
| DataStore.TransactionFile | src/DataManager.java:25-30 | the header, then one encoded line per transaction in list order (save and export alike) |
| DataStore.SaveTransactions | src/DataManager.java:25-35 | writes exactly the transaction file |
| DataStore.TransactionsRoundTrip | src/DataManager.java:25-69 | saving then loading gives back the same transactions, in order, ids included |
| DataStore.JoinOfSplitField | src/Transaction.java:50-56 | a field holding the separator joins the same as its two halves |
| DataStore.ExampleAmount | src/Transaction.java:50 | 1250 cents are written `12.50` |
| DataStore.ExampleDate | src/Transaction.java:52 | 9 March 2024 is written `2024-03-09` |
| DataStore.CommaExampleWritten | src/Transaction.java:49-53 | the example's six written fields, the description holding a comma |
| DataStore.CommaExampleSplits | src/Transaction.java:56 | a description `lunch, coffee` makes the written line split into seven fields |
| DataStore.CommaExampleMalformed | src/Transaction.java:56-63 | the sixth field is then ` coffee`, which is no date, so the line throws |
| DataStore.LoadOfOneMalformed | src/DataManager.java:55-64 | a file whose single record throws fails to load, naming line 1 |
| DataStore.CommaInDescriptionFailsLoad | src/DataManager.java:25-69 | a saved transaction whose description holds a comma makes the next load fail |
| DataStore.Records | src/DataManager.java:134-166 | the field values of each goal, in order |
| DataStore.ReadGoalLine | src/DataManager.java:152-155 | one line after the header: a goal built from a decoded line is appended, the goals stay distinct objects, and the counter moves past its id; a throwing line stops the load |
| DataStore.LoadSavingsGoals | src/DataManager.java:134-166 | the goals loaded carry, in file order, the records the lines decode to; they are distinct objects; the counter moves past every loaded id; a missing file gives no goals and a throwing line fails the load |
| DataStore.GoalLines | src/DataManager.java:125-127 | one encoded line per goal, in list order |
| DataStore.GoalFile | src/DataManager.java:122-127 | the header, then one encoded line per goal in list order |
| DataStore.SaveSavingsGoals | src/DataManager.java:122-132 | writes exactly the goal file of the goals' records |
| DataStore.GoalsRoundTrip | src/DataManager.java:122-166 | saving then loading gives back goals with the same fields, in order |
| DataStore.LoadedGoals | src/DataManager.java:134-166 | a missing file gives no goals; a file loads exactly when no line after the header throws, and a failure names such a line |
| DataStore.ParseBudgetLine | src/DataManager.java:100-104 | a line with fewer than three comma fields is passed over; one with three throws exactly when the month or the amount does not parse; a decoded entry holds the parsed month, the second field as category and the parsed amount |
| DataStore.ReplayStep | src/DataManager.java:106-107 | each accepted line sets the month, and the limit when the amount is non-negative |
| DataStore.LoadedBudget | src/DataManager.java:82-119 | a missing file gives an empty budget for the current month; a file loads exactly when no line after the header throws, and a failure names such a line |
| DataStore.ReadBudgetLine | src/DataManager.java:100-107 | a line with three fields sets the month, then the limit (dropped when negative); a short line changes nothing; the budget stays valid |
| DataStore.ApplyBudgetLine | src/DataManager.java:100-107 | after each line the budget holds the month and limits that replaying the lines so far gives; a throwing line stops the load |
| DataStore.LoadBudget | src/DataManager.java:82-119 | a fresh valid budget holding the replayed month and limits (empty, for the current month, when the file is missing); the first throwing line's index on failure |
| DataStore.LastNonNegativeWins | src/DataManager.java:104-107 | a category ends up stored exactly when some line gives it a non-negative amount, and it holds the last such amount |
| DataStore.LastLineSetsMonth | src/DataManager.java:102-106 | the loaded month is that of the last line that decodes |
| DataStore.ParseOfEntryLine | src/Budget.java:86-88 | a written budget line reads back as its entry |
| DataStore.LimitsAfterEnumeration | src/DataManager.java:104-107 | replaying the lines of a budget, written in any key order, rebuilds exactly the keys written |
| DataStore.BudgetLinesRead | src/DataManager.java:92-104 | the written lines read back, after the header, as one entry each |
| DataStore.LimitsRebuilt | src/DataManager.java:100-107 | replaying those entries rebuilds the whole map whatever the iteration order was |
| DataStore.BudgetRoundTrip | src/DataManager.java:72-107 | saving a non-empty budget with comma-free categories, then loading it, restores its month and all its limits |
| DataStore.SaveBudget | src/DataManager.java:72-80 | the header, then the budget's lines in an order that lists each category once |
| Session.MonthlySpending | src/FinanceManager.java:603-610 | the EXPENSE amounts of exactly the category (case-sensitive) dated in the month; see MonthlySpendingAppend |
| Session.MonthlySpendingAppend | src/FinanceManager.java:603-610 | a further transaction adds its amount exactly when it is an expense of that category and month |
| Session.MonthlySpendingIsSpentInMonth | src/FinanceManager.java:603-610 | the session's monthly spending equals the report's spending on the category within the month's selection |
| Session.BudgetCheck | src/FinanceManager.java:150-166 | the check runs exactly for an expense of a category with a positive limit; it reports the month's spending, limit − spending, the 80% warning and the over-budget alert, and over implies near |
| Session.KindOf | src/FinanceManager.java:111-112 | choice 1 is INCOME, anything else EXPENSE |
| Session.DateOrToday | src/FinanceManager.java:132-142 | the trimmed input's date, or today when the input is blank or does not parse |
| Session.FindGoal | src/FinanceManager.java:454-456 | the first goal with the id, or none when no goal has it |
| Session.RemoveWithId | src/FinanceManager.java:489 | keeps exactly the goals with another id, and no new ones |
| Session.RemoveWithIdShrinks | src/FinanceManager.java:489-494 | the list shrinks exactly when some goal has the id |
| Session.RemoveWithIdAppend | src/FinanceManager.java:489 | removal keeps the relative order of the remaining goals |
| Session.RemoveWithIdDistinct | src/FinanceManager.java:489 | removal keeps the goals distinct objects |
| Session.Where | src/FinanceManager.java:191-210 | a filter keeps exactly the transactions its test accepts |
| Session.WhereAppend | src/FinanceManager.java:191-210 | filters work piece by piece and keep the original order |
| Session.MonthViewIsMonthSelection | src/FinanceManager.java:189-194 | the "this month" view selects what the monthly report selects |
| Session.Selection | src/FinanceManager.java:183-212 | 1 all, 2 the current month, 3 the INCOME filter, 4 the EXPENSE filter, 5 the filter on the category compared without regard to case, each in list order, and nothing for any other choice |
| Session.InsertNewestSorted | src/FinanceManager.java:224 | inserting keeps newest-first order and adds exactly the one transaction |
| Session.NewestFirstSorted | src/FinanceManager.java:224 | the sort gives a newest-first permutation of its input |
| Session.InsertNewestStable | src/FinanceManager.java:224 | inserting keeps the transactions of each date in their order |
| Session.NewestFirstStable | src/FinanceManager.java:224 | the sort is stable: transactions with the same date keep their order |
| Session.ViewRows | src/FinanceManager.java:183-224 | the displayed rows are the selection, sorted newest first |
| Session.SignedTotalIsNet | src/FinanceManager.java:235-237 | the view total is income minus every other type |
| Session.SignedTotalAppend | src/FinanceManager.java:235-237 | the view total adds over concatenation |
| Session.SignedTotalOfNewestFirst | src/FinanceManager.java:224-237 | sorting does not change the view total |
| Session.SignedTotalOfInsert | src/FinanceManager.java:224-237 | inserting adds the transaction's signed amount to the total |
| Session.CountsWithinTotal | src/FinanceManager.java:553-556 | income and expense counts never exceed the transaction count, and fill it exactly when no other type occurs |
| Session.CountOfKindIsViewLength | src/FinanceManager.java:555-556 | a type's count is the length of the filter on that type |
| Session.Earliest | src/FinanceManager.java:564-566 | a date of the list that is on or before every date of the list |
| Session.Latest | src/FinanceManager.java:568-570 | a date of the list that is on or after every date of the list |
| Session.StatisticsOf | src/FinanceManager.java:546-576 | nothing for an empty list; otherwise the INCOME and EXPENSE counts, the goal and budget-entry numbers, and earliest and latest dates that belong to transactions of the list and bound all of them |
| Session.LoadedAll | src/FinanceManager.java:612-617 | the transactions, then the budget, then the goals; the first file with a throwing line stops the load |
| Session.LoadAll | src/FinanceManager.java:612-617 | the three loaders in order give what LoadedAll describes; each counter ends past the ids it has seen |
| Session.Open | src/FinanceManager.java:17-26 | the session is constructed with counters at 1 and no custom names, then loads the files; it succeeds exactly when the files load, and then holds their contents with the counters past every loaded id |
| Session.FinanceSession.constructor | src/FinanceManager.java:17-26 | the session holds the given lists, budget, counters and registry, and its invariant holds |
| Session.FinanceSession.AddTransaction | src/FinanceManager.java:106-167 | a non-positive amount, checked first, or a category number off the menu changes nothing; otherwise exactly one transaction with a fresh id is appended, and the budget check runs on the new list |
| Session.FinanceSession.SetBudget | src/FinanceManager.java:264-290 | an off-menu category or a negative amount changes nothing; otherwise the limit is stored and the current month's spending and remainder are reported |
| Session.FinanceSession.CreateSavingsGoal | src/FinanceManager.java:393-424 | a non-positive target or an unparsable date creates nothing; otherwise one fresh goal with the next goal id is appended, flagged past when its date is before today |
| Session.FinanceSession.UpdateGoalProgress | src/FinanceManager.java:445-478 | an unknown id or a non-positive amount changes nothing; otherwise only the first goal with the id gains the amount, and the result says whether it is achieved |
| Session.FinanceSession.DeleteGoal | src/FinanceManager.java:480-495 | removes every goal with the id and keeps the rest in order; true exactly when one was removed |
| Session.FinanceSession.AddCustomCategory | src/FinanceManager.java:534-544 | a blank name, after trimming, changes nothing; otherwise the trimmed name goes to the registry's add rule |
| Session.FinanceSession.Register | src/Category.java:44-50 | the registry's add rule applied to the name, the session invariant kept |
| Session.FinanceSession.SaveAll | src/FinanceManager.java:619-623 | writes the transaction file, the budget file (in some complete key order) and the goal file |
| Text.ParseInt | src/Transaction.java:58 | `Integer.parseInt` succeeds only on a value that fits in an `int` |
| Text.ParseIntOfToString | src/Transaction.java:50-58 | `%d` then `Integer.parseInt` restores any `int` |
| Text.NatToString | src/Transaction.java:50 | a non-empty digit string denoting the number |
| Text.Pad2 | src/Transaction.java:52 | two digits denoting the number |
| Text.Pad4 | src/Transaction.java:52 | four digits denoting the number |
| Text.Pad2OfValue | src/Transaction.java:52-63 | a two-digit field is written back as it was read |
| Text.Pad4OfValue | src/Transaction.java:52-63 | a four-digit field is written back as it was read |
| Text.ToUpper | src/Transaction.java:17 | upper-casing keeps the length |
| Text.ToUpperIdempotent | src/Transaction.java:17 | upper-casing twice is upper-casing once |
| Text.Trim | src/FinanceManager.java:133 | the result is a contiguous slice of the input: everything cut before and after it is up to U+0020, and it neither starts nor ends with such a character |
| Text.TrimmedSliceOfEnds | src/FinanceManager.java:133 | trimming the start, then the end, cuts exactly a prefix and a suffix of characters up to U+0020 |
| Text.TrimBlank | src/FinanceManager.java:536-538 | trimming leaves nothing exactly when every character is up to U+0020 |
| Text.TrimIdempotent | src/FinanceManager.java:133 | trimming twice trims nothing more |
| Text.Replace | src/SavingsGoal.java:128 | replacing keeps the length |
| Text.ReplaceBack | src/SavingsGoal.java:128-140 | replacing a character and back restores text that had none of the replacement |
| Text.Split | src/Transaction.java:56 | k separators give k + 1 fields, none holding the separator |
| Text.JoinOfSplit | src/Transaction.java:56 | joining the split fields restores the text |
| Text.SplitOfJoin | src/Transaction.java:49-56 | splitting joined separator-free fields restores them |
| Text.DropTrailingEmpty | src/Transaction.java:56 | drops exactly the trailing empty fields |
| Text.JavaSplit | src/Transaction.java:56 | no field holds the separator |
| Text.JavaSplitOfJoin | src/Transaction.java:49-56 | splitting a join of two or more separator-free fields loses only the trailing empty fields |
| Money.FormatCents | src/Transaction.java:50 | a minus sign exactly for negative amounts, and a point followed by exactly two digits holding the cents |
| Money.FormatDouble | src/Budget.java:88 | a minus sign exactly for negative amounts; a point and one digit for whole tens of cents, otherwise a point and two digits not ending in 0 |
| Money.ParseAmount | src/Transaction.java:60 | an amount that parses is non-empty and ends in a digit; it is not positive after a leading minus and not negative otherwise |
| Money.ParseOfFormatCents | src/Transaction.java:50-60 | what `%.2f` writes, `Double.parseDouble` reads back to the same cents |
| Money.ParseOfFormatDouble | src/Budget.java:88 | what `Double.toString` writes, the budget loader's `parseDouble` reads back to the same cents |
| Money.ParseAmountOfSigned | src/Transaction.java:60 | a sign followed by an unsigned amount reads as the signed amount |
| Dates.OnOrBeforeIsTotalOrder | src/FinanceManager.java:224 | the date comparison is total, antisymmetric and transitive |
| Dates.FormatDate | src/Transaction.java:52 | ten characters: four year digits, a dash, two month digits, a dash, two day digits, each group denoting its part of the date |
| Dates.ParseOfFormatDate | src/Transaction.java:52-63 | a written date parses back to itself |
| Dates.ParseDate | src/Transaction.java:63 | only text the formatter writes parses, so parsing is canonical |
| Dates.ParseOfFormatYearMonth | src/Budget.java:86 | a written year-month parses back to itself |
| Dates.FormatOfParseYearMonth | src/DataManager.java:102 | only text the formatter writes parses as a year-month |
| Sums.SumOverRemove | src/Budget.java:35-37 | the sum of the limits does not depend on the order in which keys are visited |
| Sums.TotalAfterStore | src/Budget.java:21-37 | storing a limit moves the total by the difference with the old value |
| Sums.SumAlongIsSumOver | src/ReportGenerator.java:79-80 | summing along a duplicate-free list of keys is summing over the set of those keys |

## Left out

**Arithmetic and number formats**

- Floating point: amounts are exact cents, and percentages and required savings are exact reals. IEEE `double` rounding in sums and divisions is not modelled. Neither are the locale-dependent decimal separator and the `%,` grouping in printed figures.
- Money.ParseAmount: reads only the forms the ledger writes itself: an optional sign, digits, and an optional point with one or two digits. `Double.parseDouble` also accepts exponents, more fraction digits, `NaN`, `Infinity` and hexadecimal. Such text is treated here as a line that throws.
- Money.FormatDouble: writes plain `I.F`. `Double.toString` switches to E-notation from 10^7 upwards, so budget limits of ten million or more are outside the model.
- Text.ToUpper, Text.EqualsIgnoreCase: apply ASCII case rules only. Java also case-maps non-ASCII letters.
- Text.ParseInt: accepts ASCII digits only. `Integer.parseInt` also accepts other Unicode decimal digits (through `Character.digit`), so an id written in, say, Arabic-Indic digits loads in Java but throws here.

**Dates and the clock**

- Dates: only years 1 to 9999 in strict four-digit form. `LocalDate.parse` also accepts signed years with more digits.
- The clock: `LocalDate.now()` and `YearMonth.now()` are parameters here (`today`, `currentMonth`).
- Days remaining: `ChronoUnit.DAYS.between` is a parameter of the required-savings and time-remaining functions. `getDaysRemaining` and `getTotalDays` are not modelled.

**Ids**

- Ids.IdCounter: `nextId` is an unbounded integer. The 32-bit wrap-around of `nextId++` is not modelled. `Integer.parseInt`'s range check is modelled.

**Files and input**

- Files: each file is a sequence of lines, and a missing file is `None`. The following are not modelled:
  - directories, `createDataDirectory`, `createBackup`, `copyFile` and `hasExistingData`;
  - `IOException`;
  - line terminators, including a newline typed inside a field.
- `exportTransactionsToCSV` writes the same lines as `saveTransactions` (DataStore.TransactionFile). The export file name built from the date is not modelled.
- Console input: `getIntInput` and `getDoubleInput` retry until the input parses. Their parsed results are parameters of the commands.

**Display**

- Menus, prompts, messages, `toString`, `displayCategories`, `viewBudget`, `viewSavingsGoals`, `budgetReport` and `reportsMenu` print text and change nothing. They are not modelled. The figures they print come from the modelled functions.
- Transaction view: the truncation of long descriptions and the `dd/MM/yyyy` date format are not modelled. The two "No transactions found" early returns (empty ledger, empty selection) only print. Session.ViewRows gives the empty list for both.
- `exportData` refuses an empty ledger before writing. The refusal only prints and is not modelled.
- `main`, `run` and the menu dispatch loops are not modelled.
- Session.SignedTotal: the view prints `Math.abs` of this total. The model keeps the signed value.
- Session.FinanceSession.UpdateGoalProgress and Session.FinanceSession.DeleteGoal: on an empty goal list the code prints "No savings goals found." and stops. The model's behaviour is the same, but it gives no separate outcome for this: the lookup finds nothing.

**Map iteration order**

- `HashMap` iteration order is unspecified. The budget's lines and its total visit the keys in a ghost enumeration that lists every key once. The breakdown keeps equal sums in the order their categories first appear; Java's order for ties is unspecified.

**Object-level details**

- Transactions.Create: a `Transaction` is a value. The setters return a changed copy rather than updating an object, since nothing in the core holds two references to one transaction.
- SavingsGoal setters other than `setCurrentAmount` (`setName`, `setTargetAmount`, `setTargetDate`, `setDescription`) are plain field writes and are not modelled.
- DataStore.LoadSavingsGoals: states that the loaded goals are distinct objects. It does not state that they are freshly allocated.
- `getAllBudgets` returns a copy of the map. The model reads the `limits` map directly, which no caller changes.
- `ReportGenerator` keeps references to the session's list and budget. The report functions take the transactions and the budget as arguments instead, which is what the references give at the time of each report.
- Getters are plain field reads, and the model reads the fields directly.

**Loading**

- Loading follows the code rather than a description of it: a line with enough fields whose number or date does not parse throws past the `IOException` handler, so the whole load fails. It is not skipped.
- Header: the `firstLine` flag is modelled as "line 0 is the header". The header's content is never inspected, as in the code.
