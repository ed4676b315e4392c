# Budget app ledger and figures, in Dafny

This project models the core of a personal expense tracker. The tracker records transactions against accounts ("sources") and categories, and keeps each account's balance in step with the transactions. From that state it derives the figures its screens show:

- the dashboard's total spent, total balance, essential/non-essential split and per-account spending;
- the categories screen's per-category totals, sorted largest first, with their percentages and icons;
- the calendar's month grid and its DAY/WEEK/YEAR summaries around a selected date;
- the text digest and prompt sent to the AI insights service, and the messages shown for its outcomes;
- the new-expense form and the sources screen, which decide when a transaction or account is created or a balance overwritten.

Each source file becomes one module:

- `types.dfy` models types.ts.
- `ledger.dfy` models context/BudgetContext.tsx.
- `dashboard.dfy`, `categories.dfy`, `calendar.dfy`, `transaction_form.dfy` and `accounts_form.dfy` model the components of the same names.
- `insights.dfy` models services/geminiService.ts.
- `text.dfy` and `dates.dfy` model the JavaScript string and `Date` behaviour those files rely on:
  - `String(n)`, `split`, `join`, `indexOf`, `includes`, `replace` and `toLowerCase`;
  - local calendar fields, `getDay`, `setDate` and `new Date(y, m, d)` normalisation;
  - the date part of `toISOString`.

The store's state changes in place, so it is a class whose methods replace its `seq` fields. The form states are classes too, and so is a `Date` object that `setDate` changes. Each method is proved against a pure step function. The properties are proved about those functions, for example:

- adding and then deleting a transaction restores the ledger;
- the essential and non-essential sums partition the total spent;
- the category sort is a stable permutation;
- the week window runs from a Monday to the following Sunday;
- the digest splits back into its lines.

Amounts and balances are whole numbers. Ids, the current time, the number `parseFloat` reads from a text field, and the AI service are parameters.

Where the code does something other than its labels suggest, the model follows the code:

- **MONTH summary.** The MONTH summary counts only the selected calendar day (components/CalendarView.tsx:61-62).
- **WEEK window.** It runs from the Monday to the Sunday at the selected date's own time of day, not from 00:00:00 to 23:59:59 (components/CalendarView.tsx:39-41). `Calendar.WeekWindowMembership` states which moments fall inside it.
- **YEAR window.** It ends at December 31 00:00:00, so the rest of that day is not counted (components/CalendarView.tsx:43-44). `Calendar.YearWindowMembership` states this.
- **DAY mode.** It is declared in types.ts but never offered.

## Model

| member | source | states |
|---|---|---|
| Types.AccountTypeLiterals | types.ts:1 | An account type reads back from exactly one of the four literals CASH, BANK_BOC, BANK_PEOPLES, BANK_OTHER |
| Types.CategoryTypeLiterals | types.ts:10 | A category type reads back from exactly ESSENTIAL or NON_ESSENTIAL |
| Types.FindTransaction | context/BudgetContext.tsx:80 | `find` gives nothing exactly when no transaction has the id, otherwise the first one that has it |
| Types.FindAccount | context/BudgetContext.tsx:108 | `find` gives nothing exactly when no account has the id, otherwise the first one that has it |
| Types.FindCategorySpec | components/Dashboard.tsx:34 | `find` gives nothing exactly when no category has the id, otherwise the first one that has it |
| Types.AccountNameOr | components/Dashboard.tsx:50 | The fallback is returned exactly when the account is missing, its name is empty, or its name equals the fallback; any other result is the name of the first account with that id |
| Types.FindAccountAppend | context/BudgetContext.tsx:100-108 | Appending an account never changes an earlier match; the new account is found only when no earlier account has its id |
| Dates.Weekday | components/CalendarView.tsx:20 | `getDay()` is a weekday number from 0 (Sunday) to 6 |
| Dates.DaysInMonth | components/CalendarView.tsx:21 | A month has 28 to 31 days |
| Dates.NormalizeDay | components/CalendarView.tsx:40-41 | An out-of-range day of month carries into neighbouring months: the result is a real date, `d - 1` days after the 1st |
| Dates.MakeDate | components/CalendarView.tsx:79 | `new Date(y, m, d)` carries the month into the year and the day into the month, giving a real date |
| Dates.SetDate | components/CalendarView.tsx:40-41 | `setDate(d)` moves the date by `d` minus the old day of month and keeps the time of day |
| Dates.NextMonthStart | components/CalendarView.tsx:21 | The first of the next month comes DaysInMonth days after the first of this one |
| Dates.NormalizeInRange | components/CalendarView.tsx:27 | A day already inside its month is left as it is |
| Dates.DayNumberOrder | components/CalendarView.tsx:64 | Day numbers order real dates exactly as the calendar does, and equal day numbers mean equal dates |
| Dates.DayNumberIncreasing | components/CalendarView.tsx:64 | A date earlier in the calendar has a smaller day number |
| Dates.MakeDateInRange | components/CalendarView.tsx:27 | `new Date(y, m, d)` with a day inside the month is that very date |
| Dates.PreviousMonthStart | components/CalendarView.tsx:40-41 | The first of the previous month comes that month's length before the first of this one |
| Dates.InstantOrder | components/CalendarView.tsx:57-64 | Comparing time values compares the day first and the time of day second |
| Dates.IsoDatePart | services/geminiService.ts:27 | `date.split('T')[0]` of the stored ISO string is its `YYYY-MM-DD` date part |
| Text.IntToStringRoundTrip | components/AccountsView.tsx:31-38 | The decimal text of an integer reads back as that integer |
| Text.Split | services/geminiService.ts:27 | `split` gives at least one part, and a text without the separator is its only part |
| Text.SplitJoin | services/geminiService.ts:23-28 | Splitting joined lines at the separator gives the lines back when none holds it |
| Text.Before | services/geminiService.ts:27 | `s.split(sep)[0]` is the text before the first separator, or all of `s` when there is none |
| Text.IndexOf | components/CategoriesView.tsx:110-114 | `indexOf` finds an occurrence with no earlier one, or reports that there is none |
| Text.Contains | components/CategoriesView.tsx:110-114 | `includes` holds exactly when the word occurs somewhere |
| Text.ReplaceFirst | components/AccountsView.tsx:91 | `replace` with a string pattern changes only the first occurrence and leaves text without one as it is |
| Text.ToLower | components/AccountsView.tsx:91 | `toLowerCase` keeps the length and lower-cases character by character |
| Ledger.SeedIdsDistinct | context/BudgetContext.tsx:19-37 | The three seed accounts and eight seed categories have distinct ids |
| Ledger.BalanceEffect | context/BudgetContext.tsx:64-76 | An EXPENSE lowers its account's balance by the amount; an INCOME raises it |
| Ledger.Adjust | context/BudgetContext.tsx:65-75 | Only the accounts with the id change, by the delta; the others and the order stay |
| Ledger.Overwrite | context/BudgetContext.tsx:105 | Only the accounts with the id change, to the new balance; the others and the order stay |
| Ledger.WithoutId | context/BudgetContext.tsx:97 | The filter never lengthens the list |
| Ledger.WithoutIdMembers | context/BudgetContext.tsx:97 | The filter keeps exactly the transactions whose id differs |
| Ledger.WithoutIdCounts | context/BudgetContext.tsx:97 | The filter drops every copy of a transaction with the id and keeps every copy of the others |
| Ledger.WithoutIdAppend | context/BudgetContext.tsx:97 | The filter keeps the order: filtering a concatenation filters each part in place |
| Ledger.AddTransactionEffect | context/BudgetContext.tsx:60-77 | The new transaction comes first and the old sequence follows unchanged; each account moves by its own share of the amount |
| Ledger.AddWithUnknownAccount | context/BudgetContext.tsx:65-75 | A transaction against an unknown account is stored and no balance changes |
| Ledger.DeleteAbsentIsNoOp | context/BudgetContext.tsx:79-98 | Deleting an id that no transaction carries changes nothing |
| Ledger.DeleteEffect | context/BudgetContext.tsx:79-98 | Deleting removes every copy of every transaction with the id, keeps every copy of the others, and reverses the first match's effect on its accounts |
| Ledger.AdjustInverse | context/BudgetContext.tsx:84-94 | Reversing a balance change restores the accounts |
| Ledger.AddThenDeleteRestores | context/BudgetContext.tsx:60-98 | Adding a transaction with a fresh id and then deleting it restores the ledger exactly |
| Ledger.OverwriteBetweenAddAndDelete | context/BudgetContext.tsx:79-106 | A manual overwrite made between the add and the delete is not undone: the reversal is applied on top of the new balance |
| Ledger.AddAccountNames | context/BudgetContext.tsx:100-108 | After adding an account with a fresh id, its id resolves to its name (or the fallback for an empty name) and every other id resolves as before |
| Ledger.UpdateBalanceEffect | context/BudgetContext.tsx:104-106 | An overwrite touches only the matching accounts, leaves the transactions alone, and is a no-op for an unknown id |
| Ledger.AddAllBalances | context/BudgetContext.tsx:60-77 | After a run of additions every account has moved by exactly the net effect of the transactions against it |
| Ledger.BudgetStore.constructor | context/BudgetContext.tsx:40-50 | The store starts from what was saved, or from no transactions and the seed accounts; categories are the seed categories |
| Ledger.BudgetStore.AddTransaction | context/BudgetContext.tsx:60-77 | The store's new state is the addition step applied to the old one |
| Ledger.BudgetStore.DeleteTransaction | context/BudgetContext.tsx:79-98 | The store's new state is the deletion step applied to the old one |
| Ledger.BudgetStore.AddAccount | context/BudgetContext.tsx:100-102 | The account is appended and nothing else changes |
| Ledger.BudgetStore.UpdateAccountBalance | context/BudgetContext.tsx:104-106 | The store's new state is the overwrite step applied to the old one |
| Ledger.BudgetStore.GetAccountName | context/BudgetContext.tsx:108 | "Unknown Account" exactly when no account has the id, the first such account's name is empty, or that name is "Unknown Account"; otherwise the first such account's name |
| Ledger.BudgetStore.GetCategoryName | context/BudgetContext.tsx:109 | "Unknown Category" exactly when no category has the id, the first such category's name is empty, or that name is "Unknown Category"; otherwise the first such category's name |
| Dashboard.TotalSpentAppend | components/Dashboard.tsx:16-20 | The total spent is additive over concatenation |
| Dashboard.TotalSpentWithoutExpenses | components/Dashboard.tsx:16-20 | Income never counts as spending |
| Dashboard.TotalSpentNonNegative | components/Dashboard.tsx:16-20 | Non-negative amounts give a non-negative total spent |
| Dashboard.SplitPartitionsTotal | components/Dashboard.tsx:28-43 | The essential and non-essential sums add up to the total spent; an expense with a missing category counts as non-essential |
| Dashboard.EssentialVsNonData | components/Dashboard.tsx:28-43 | The loop yields the "Essential" and "Non-Essential" entries, whose values are the two sums and add up to the total spent |
| Dashboard.AddToKeys | components/Dashboard.tsx:51-53 | A name seen for the first time is appended to the record's keys; a known name keeps its place |
| Dashboard.AddToValue | components/Dashboard.tsx:51 | Only the entry under the name grows, and by the amount |
| Dashboard.AddToSum | components/Dashboard.tsx:51 | Each step adds its amount to the record's sum |
| Dashboard.Dedup | components/Dashboard.tsx:53 | The keys list each name once and hold exactly the names seen |
| Dashboard.GroupByNameSpec | components/Dashboard.tsx:46-54 | The per-account record lists each resolved name once, in order of first expense; each value is the spending under that name; the values add up to the total spent |
| Dashboard.AccountSpendingData | components/Dashboard.tsx:46-54 | The loop builds exactly that record |
| Dashboard.AdjustTotalBalance | components/Dashboard.tsx:23-25 | A balance change moves the total balance by the delta once per matching account |
| Dashboard.AddMovesTotals | components/Dashboard.tsx:16-25 | With distinct account ids, recording a transaction against a known account moves the total balance by its effect and the total spent by its amount when it is an expense |
| Dashboard.SeedExpenseScenario | components/Dashboard.tsx:16-25 | With the seed accounts, a 500 expense from the wallet leaves 4500 in it, 44500 in total, and 500 spent |
| Categories.ListedMembers | components/CategoriesView.tsx:14-23 | A category is listed in its own bucket exactly when its expense total is strictly positive |
| Categories.InsertMultiset | components/CategoriesView.tsx:26-27 | Inserting adds exactly the item |
| Categories.InsertSorted | components/CategoriesView.tsx:26-27 | Inserting into a list sorted largest first keeps it sorted |
| Categories.InsertWithTotal | components/CategoriesView.tsx:26-27 | Inserting keeps each run of equal totals in order and puts the item at the end of its own run |
| Categories.InsertSum | components/CategoriesView.tsx:26-27 | Inserting adds the item's total to the sum |
| Categories.SortSorted | components/CategoriesView.tsx:26-27 | The sorted bucket is ordered by total, largest first |
| Categories.SortMultiset | components/CategoriesView.tsx:26-27 | The sorted bucket holds exactly the items it was given |
| Categories.SortStable | components/CategoriesView.tsx:26-27 | Items with equal totals keep their relative order |
| Categories.SortSum | components/CategoriesView.tsx:26-27 | Sorting keeps the bucket's sum |
| Categories.SortSpec | components/CategoriesView.tsx:26-27 | The sort orders by total, largest first; it is a permutation; it is stable; it keeps the sum |
| Categories.BucketSpec | components/CategoriesView.tsx:8-30 | A sorted bucket is ordered, keeps its sum, and holds exactly its type's categories with a positive total |
| Categories.CollectBuckets | components/CategoriesView.tsx:14-23 | The loop pushes each positive-total category onto its type's bucket in definition order, and each bucket's total is the sum of its items |
| Categories.ComputeSpendingData | components/CategoriesView.tsx:8-30 | Both buckets are filled and sorted largest first; their totals are their items' sums; an item is in a bucket exactly when its category has that type and a positive total |
| Categories.SpentInOrOrphan | components/CategoriesView.tsx:32 | Spending under known ids plus spending under unknown ids is the total spent |
| Categories.BucketsCoverKnownCategories | components/CategoriesView.tsx:14-32 | With distinct category ids and non-negative amounts, the two bucket totals together are the spending under the known categories |
| Categories.BucketsStep | components/CategoriesView.tsx:14-23 | One more category adds its positive total to exactly one bucket, and nothing otherwise |
| Categories.ScreenTotalAgainstDashboard | components/CategoriesView.tsx:32 | With distinct category ids and non-negative amounts, the screen's total is the dashboard's total spent minus the spending under unknown category ids, so it never exceeds it |
| Categories.Percentage | components/CategoriesView.tsx:118 | The share is 0 when nothing was spent, otherwise the percentage rounded half up |
| Categories.PercentageBounds | components/CategoriesView.tsx:118 | A row whose total is part of the screen total has a share between 0 and 100 |
| Categories.FirstKeyword | components/CategoriesView.tsx:108-116 | The first keyword, in the order tested, that occurs in the lower-cased name, or none |
| Categories.CategoryIconByKeywords | components/CategoriesView.tsx:108-116 | The icon is the one of the first keyword that occurs in the lower-cased name, or else the name's first character |
| Calendar.JsDate.SetDate | components/CalendarView.tsx:40-41 | `setDate` changes the Date object itself, as the day-of-month step function says |
| Calendar.WeekWindowSpec | components/CalendarView.tsx:37-41 | The week runs from a Monday to the Sunday six days later, holds the selected day, keeps its time of day, and starts 6 days back on a Sunday and `weekday - 1` days back otherwise |
| Calendar.WeekStartSpec | components/CalendarView.tsx:38-40 | The start is the Monday on or before the selected day (six days back from a Sunday), at its time of day |
| Calendar.WeekEndSpec | components/CalendarView.tsx:41 | The end is the Sunday six days after the start, at the same time of day |
| Calendar.SixDaysOnMonday | components/CalendarView.tsx:41 | Six days on from any Monday is the Sunday of that week |
| Calendar.WeekWindowStable | components/CalendarView.tsx:37-41 | Recomputing the week from the Sunday the computation leaves behind gives the same window |
| Calendar.WeekWindowMembership | components/CalendarView.tsx:37-64 | A moment is in the week window exactly when it falls strictly between that Monday and Sunday, on the Monday no earlier than the selected time of day, or on the Sunday no later than it |
| Calendar.YearWindowMembership | components/CalendarView.tsx:42-64 | The year window holds every moment of the year except December 31 after midnight |
| Calendar.WithinMembers | components/CalendarView.tsx:54-73 | The transactions counted are exactly those inside the window |
| Calendar.StatsAreFigures | components/CalendarView.tsx:50-75 | A summary is the dashboard's three figures over the transactions inside the window |
| Calendar.WindowTotal | components/CalendarView.tsx:50-75 | The summary's total is the total spent inside the window |
| Calendar.WindowEssential | components/CalendarView.tsx:50-75 | The summary's essential side is the essential spending inside the window |
| Calendar.WindowNonEssential | components/CalendarView.tsx:50-75 | The summary's other side is the rest of the spending inside the window |
| Calendar.StatsAreWindowedFigures | components/CalendarView.tsx:50-75 | A summary is the dashboard's figures over the transactions inside the window, so its total is the sum of its two sides |
| Calendar.WindowStats | components/CalendarView.tsx:50-75 | The loop yields the summary of the window, whose total is essential plus non-essential |
| Calendar.WeekWindowInPlace | components/CalendarView.tsx:37-41 | The WEEK branch yields the week window and leaves the Date object on that week's Sunday |
| Calendar.SummaryWindow | components/CalendarView.tsx:34-48 | The window is the one the mode selects; only WEEK mode moves the Date object |
| Calendar.StatsNonNegative | components/CalendarView.tsx:50-75 | Non-negative amounts give non-negative sides |
| Calendar.AlertCondition | components/CalendarView.tsx:177 | With non-negative amounts the banner shows exactly when non-essential spending exceeds essential spending |
| Calendar.DayZeroOfNextMonth | components/CalendarView.tsx:21 | Day 0 of the next month is the last day of this one |
| Calendar.EmptyCells | components/CalendarView.tsx:25 | The first loop pushes exactly `firstDay` empty cells |
| Calendar.DateCells | components/CalendarView.tsx:27 | The second loop pushes the 1st to the last day of the month, in order, at midnight |
| Calendar.CalendarDays | components/CalendarView.tsx:17-30 | The grid is `firstDay` empty cells, then each day of the month at midnight, in order |
| Calendar.GridColumns | components/CalendarView.tsx:20-27 | Each date sits in the column of its weekday, Sunday first |
| Calendar.MonthAwaySpec | components/CalendarView.tsx:78-80 | Stepping lands on the 1st, counts months with carry into the year, and steps compose |
| Calendar.MonthAwayIndex | components/CalendarView.tsx:78-80 | One step lands on the 1st of the month `offset` months on, counting across years |
| Calendar.HasTransactions | components/CalendarView.tsx:96-104 | A cell is marked exactly when it is a date and some transaction, of either type, falls on that calendar day |
| Calendar.CalendarView.constructor | components/CalendarView.tsx:12-14 | The shown month and the selection start at the given moment, and the mode starts as MONTH |
| Calendar.CalendarView.SetViewMode | components/CalendarView.tsx:113 | The mode buttons change the mode and nothing else |
| Calendar.CalendarView.ComputeStats | components/CalendarView.tsx:33-76 | The summary of the mode's window around the selection (or the clock when nothing is selected); in WEEK mode the selection itself is left on the week's Sunday |
| Calendar.CalendarView.ComputeStatsOnCopy | components/CalendarView.tsx:33-76 | The same summary, computed without moving the selection |
| Calendar.CalendarView.ChangeMonth | components/CalendarView.tsx:78-80 | The shown month becomes the 1st of the month `offset` months away, at midnight |
| Calendar.CalendarView.HandleDateClick | components/CalendarView.tsx:82-87 | An empty cell does nothing; a date becomes the selection and the mode becomes MONTH |
| Calendar.CalendarView.IsSelected | components/CalendarView.tsx:89-94 | False when either side is missing, otherwise whether both fall on the same calendar day |
| Calendar.WeekModeMovesSelection | components/CalendarView.tsx:37-41 | The WEEK computation leaves the selection where it was exactly when it is a Sunday |
| Calendar.WeekModeMovesWednesday | components/CalendarView.tsx:37-41 | A selected Wednesday, 15 January 2025, is moved to Sunday the 19th |
| Insights.CategoryLabel | services/geminiService.ts:24-25 | `name (TYPE)` for a known category, "Unknown" otherwise |
| Insights.DigestLine | services/geminiService.ts:23-27 | A line reads `- <date>: Rs. <amount> on <category> (<account>)`, with "Unknown" for a missing or unnamed account |
| Insights.Lines | services/geminiService.ts:22-28 | One line per transaction among the first 50, in order |
| Insights.DigestOfFew | services/geminiService.ts:23-28 | No transactions give an empty digest; one gives its line alone |
| Insights.DigestLineSingle | services/geminiService.ts:27 | A line holds no line break when the names in it hold none |
| Insights.DigestSplitsIntoLines | services/geminiService.ts:23-28 | For at least one transaction, with category and account names that hold no line break, splitting the digest at line breaks gives back the lines |
| Insights.Prompt | services/geminiService.ts:30-38 | The prompt is the fixed instructions, then the digest unchanged, then the closing whitespace |
| Insights.ReplyMessage | services/geminiService.ts:40-49 | An error gives the failure message, an empty or absent text gives the no-insights message, any other text is shown as it is |
| Insights.GenerateSpendingInsights | services/geminiService.ts:13-50 | Without a key, the unavailability message; otherwise the message for the service's reply to the prompt built from the digest |
| Insights.ReplyOutcomes | services/geminiService.ts:45-48 | The message is a fixed message or the service's own non-empty text |
| Insights.OnlyRecentReachService | services/geminiService.ts:22 | Transactions after the first 50 do not change the digest |
| TransactionForm.AccountIconFor | components/AddTransaction.tsx:37-44 | Cash for CASH, bank for BANK_BOC and BANK_PEOPLES, card for BANK_OTHER, each in both directions |
| TransactionForm.DefaultAccountId | components/AddTransaction.tsx:15 | The first account's id, or "" when there are none |
| TransactionForm.DefaultCategoryId | components/AddTransaction.tsx:16 | The first category's id, or "" when there are none |
| TransactionForm.Submission | components/AddTransaction.tsx:19-31 | Nothing exactly when the amount text, the account or the category is empty; otherwise an EXPENSE at midnight of the chosen day that copies the selections and the description |
| TransactionForm.NoAccountsRejectsDefault | components/AddTransaction.tsx:15-21 | With no accounts the default selection makes every submit fail |
| TransactionForm.ZeroAmountPasses | components/AddTransaction.tsx:21 | An amount text of "0" is not rejected |
| TransactionForm.SubmissionDebitsSelectedAccount | components/AddTransaction.tsx:23-33 | A successful submit stores the transaction first and lowers only the selected account's balance, by the amount |
| TransactionForm.ExpenseForm.constructor | components/AddTransaction.tsx:13-17 | The form opens empty, with the default selections and today's date |
| TransactionForm.ExpenseForm.HandleSubmit | components/AddTransaction.tsx:19-35 | The transaction is added and the form closed exactly when the guard passes; otherwise the store is unchanged |
| AccountsForm.TypeLabels | components/AccountsView.tsx:91 | The labels are "cash", "boc", "peoples" and "other" |
| AccountsForm.StrippedLiteral | components/AccountsView.tsx:91 | A literal that is "BANK_" plus a word, or a word with no 'B', labels as the word lower-cased, when the word has no '_' |
| AccountsForm.StripPlain | components/AccountsView.tsx:91 | A literal with no 'B' and no '_' passes both replacements unchanged |
| AccountsForm.StripBank | components/AccountsView.tsx:91 | "BANK_" followed by a word without underscores comes out as that word |
| AccountsForm.SourceIconMatchesForm | components/AccountsView.tsx:87 | The sources screen pictures every account type as the new-expense form does |
| AccountsForm.NewAccount | components/AccountsView.tsx:16-24 | Nothing for an empty name; otherwise an account of the chosen type with a zero balance |
| AccountsForm.OpenThenSaveUnchanged | components/AccountsView.tsx:29-41 | For an account of the list: the editor's initial text reads back as the balance, and, with distinct account ids, saving it unchanged leaves the accounts as they were |
| AccountsForm.AccountsPanel.constructor | components/AccountsView.tsx:8-14 | The form is hidden and empty, the type defaults to BANK_OTHER, and nothing is being edited |
| AccountsForm.AccountsPanel.ToggleAdd | components/AccountsView.tsx:47 | The plus button shows or hides the add form |
| AccountsForm.AccountsPanel.HandleAdd | components/AccountsView.tsx:16-27 | With a name, the account is appended, the form closes and the name is cleared; with an empty name nothing changes |
| AccountsForm.AccountsPanel.OpenEditBalance | components/AccountsView.tsx:29-32 | The editor holds the account and its balance as text, which reads back as the balance |
| AccountsForm.AccountsPanel.HandleUpdateBalance | components/AccountsView.tsx:34-41 | Only with an account open and a non-empty value is its balance overwritten and the editor cleared; otherwise nothing changes |

## Reference definitions

These functions define what the source computes. They carry no contract of their own; the members named beside them state their properties.

| definition | source | properties stated by |
|---|---|---|
| Ledger.AfterAdd | context/BudgetContext.tsx:60-77 | Ledger.AddTransactionEffect, Ledger.AddThenDeleteRestores, Ledger.BudgetStore.AddTransaction |
| Ledger.AfterDelete | context/BudgetContext.tsx:79-98 | Ledger.DeleteEffect, Ledger.DeleteAbsentIsNoOp, Ledger.BudgetStore.DeleteTransaction |
| Ledger.AfterAddAccount | context/BudgetContext.tsx:100-102 | Ledger.AddAccountNames, Ledger.BudgetStore.AddAccount |
| Ledger.AfterUpdateBalance | context/BudgetContext.tsx:104-106 | Ledger.UpdateBalanceEffect, Ledger.BudgetStore.UpdateAccountBalance |
| Dashboard.TotalSpent | components/Dashboard.tsx:16-20 | Dashboard.TotalSpentAppend, Dashboard.TotalSpentWithoutExpenses, Dashboard.TotalSpentNonNegative |
| Dashboard.TotalBalance | components/Dashboard.tsx:23-25 | Dashboard.AdjustTotalBalance, Dashboard.AddMovesTotals |
| Dashboard.EssentialSpent | components/Dashboard.tsx:32-37 | Dashboard.SplitPartitionsTotal, Dashboard.EssentialVsNonData |
| Dashboard.NonEssentialSpent | components/Dashboard.tsx:32-37 | Dashboard.SplitPartitionsTotal, Dashboard.EssentialVsNonData |
| Dashboard.GroupByName | components/Dashboard.tsx:46-54 | Dashboard.GroupByNameSpec, Dashboard.AccountSpendingData |
| Categories.CategoryTotal | components/CategoriesView.tsx:15-17 | Categories.ListedMembers, Categories.BucketsCoverKnownCategories |
| Categories.Listed | components/CategoriesView.tsx:14-23 | Categories.ListedMembers, Categories.CollectBuckets, Categories.BucketSpec |
| Categories.SortByTotalDesc | components/CategoriesView.tsx:26-27 | Categories.SortSpec and the Sort lemmas it gathers |
| Categories.CategoryIcon | components/CategoriesView.tsx:108-116 | Categories.CategoryIconByKeywords |
| Calendar.WeekStart | components/CalendarView.tsx:38-40 | Calendar.WeekStartSpec |
| Calendar.WeekEnd | components/CalendarView.tsx:41 | Calendar.WeekEndSpec |
| Calendar.YearWindow | components/CalendarView.tsx:43-44 | Calendar.YearWindowMembership |
| Calendar.WindowFor | components/CalendarView.tsx:37-48 | Calendar.SummaryWindow (the window each mode picks); Calendar.WeekWindowMembership and Calendar.YearWindowMembership describe those windows |
| Calendar.StatsOf | components/CalendarView.tsx:50-75 | Calendar.StatsAreFigures, Calendar.WindowStats, Calendar.StatsNonNegative |
| Calendar.ShowAlert | components/CalendarView.tsx:177 | Calendar.AlertCondition |
| Calendar.MonthAway | components/CalendarView.tsx:78-80 | Calendar.MonthAwaySpec, Calendar.MonthAwayIndex |
| AccountsForm.TypeLabel | components/AccountsView.tsx:91 | AccountsForm.TypeLabels, AccountsForm.StrippedLiteral |
| AccountsForm.SourceIcon | components/AccountsView.tsx:87 | AccountsForm.SourceIconMatchesForm |
| Insights.Digest | services/geminiService.ts:22-28 | Insights.DigestOfFew, Insights.DigestSplitsIntoLines, Insights.OnlyRecentReachService |
| Text.IntToString | components/AccountsView.tsx:31 | Text.IntToStringRoundTrip |
| Text.Join | services/geminiService.ts:28 | Text.SplitJoin |

## Findings

| source | as written | input that shows it | evidently intended | confidence | as-written member | corrected member |
|---|---|---|---|---|---|---|
| components/CalendarView.tsx:35-41 | In WEEK mode `stats` calls `setDate` on `now`, which is the selected date object itself, so computing the summary moves the user's selection to the Sunday of its week | selected date 2025-01-15 (a Wednesday), mode WEEK: afterwards the selection is 2025-01-19 | the summary is computed on a copy and the selection stays where the user put it | not executed | Calendar.CalendarView.ComputeStats, Calendar.WeekModeMovesWednesday | Calendar.CalendarView.ComputeStatsOnCopy |

## Left out

- Rendering: JSX, styling, charts, markdown display, theme colours, the navigation bar, icon components, the app shell and its splash timer.
- Persistence: `localStorage` and JSON. The store's constructor takes what was saved as optional parameters.
- The service worker (public/sw.js): it is network and cache I/O.
- The AI client, the API key lookup and logging. The key's presence is a boolean, and the service is a function from the prompt to a reply (a text, possibly absent, or an error).
- Floating point: amounts and balances are whole numbers.
  - `parseFloat` is not modelled; the number it reads is a parameter.
  - `toLocaleString` is not modelled.
  - `Math.round` on a float division is modelled as exact rounding half up.
  - The add/delete round trip holds only under exact arithmetic.
- Time zones and date parsing: timestamps are local calendar fields plus seconds of the day.
  - `new Date(isoString)`, the UTC conversion in `toISOString` and milliseconds are not modelled.
  - The year rendering covers `toISOString`'s four-digit and six-digit forms.
  - `new Date(y, m, d)`'s special treatment of years 0 to 99 is not modelled.
- Id generation from `Date.now()`: ids are parameters.
- React scheduling: state setters are modelled as immediate, sequential updates.
  - Update batching is not modelled.
  - `deleteTransaction` reads `transactions` from its closure rather than from the latest state; that stale read is not modelled.
- `Dashboard.AccountSpendingData` (and `Dashboard.GroupByNameSpec`): the source's record is a plain `{}`, which inherits from `Object.prototype`. An account named "__proto__", "constructor", "toString" or another inherited name does not behave as a fresh key there. The model treats every name as a fresh key.
- `Object.keys` ordering: integer-like keys come first in JavaScript. The per-account record is modelled in insertion order.
- `toLowerCase` is modelled on ASCII letters only.
- Object identity:
  - In the source, a clicked grid cell and the selection are the same `Date` object, so moving the selection in WEEK mode also changes that cell. The model gives the selection its own `Date` object.
  - `Calendar.CalendarView.HandleDateClick` stores a fresh object holding the clicked moment.
- The category sort is modelled as a pure stable sort function over a sequence, not an in-place sort of the pushed array.
- `DailySummary` is declared in types.ts but nothing builds it; it is declared and left unused.
- The inline setters of the form fields (`onChange`) are plain field assignments and are not separate methods.
- `Insights.GenerateSpendingInsights`: the asynchronous call is modelled as a plain function call.
