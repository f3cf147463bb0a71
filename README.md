# Personal accounting system: the ledger core in Dafny

This project models the core of an Android app for personal income and expense accounting. It is a model, and the app is written in Kotlin. The user keeps several ledgers (**accounts**), each with a balance. Every account holds income and expense **records**. The model covers:

- **The two Room entities**, `Account` and `Record`, with their defaults. A record's `accountId` is a foreign key to the account, with `ON DELETE CASCADE`.
- **The two DAOs**, `AccountDao` and `RecordDao`. They are one store class, `Store.Database`, with the two tables as sequences. Each writing statement is one method. Each query is a function of the tables. The AUTOINCREMENT counter of each table is a field. Id 0 asks for the next counter value. An explicit id that is taken is refused with a UNIQUE violation. A record naming no account is refused with a FOREIGN KEY violation. `@Update` and `@Delete` go by primary key and ignore an absent id. `ORDER BY ... DESC` is a stable insertion sort. `COALESCE(SUM(amount), 0.0)` is a sum that is 0.0 on no rows.
- **The record list's date grouping** (`groupByDate`). It is a loop proved against a prefix specification. Alongside it are the two DiffUtil callbacks, for record rows and for account cards.
- **The two view models** (`AccountViewModel`, `RecordViewModel`). They are classes holding the screen state and a reference to the store. Each command performs the store call and then updates the state.

How the view models are modelled:

- **Commands.** A command's coroutine runs at once on the main dispatcher. So each command is one method: it makes the repository call and then runs the rest of the coroutine. A successful command lowers the loading flag and then starts a reload, which raises the flag again. Its final state therefore shows loading, unless nothing is reloaded: `RecordViewModel` reloads only when an account is selected. A failed command sets the error message and ends with loading off.
- **Failures.** A repository call can throw for reasons the store does not model, such as an I/O failure. The parameter `fault` carries such an exception's message, and the store is then untouched.
- **Flow emissions.** A collection of a Room flow stays active until it fails. Each emission is a method call that re-reads the tables: `DeliverAccounts` or `DeliverRecords(accountId)`. A failure caught by the flow's `catch` sets the error, leaves the loading flag alone, and ends that collection.
- **Old collections.** The source never cancels a record collection when the selected account changes. The model keeps every collection as the account id it was started for, in a multiset. Pending statistics computations are kept the same way.
- **Statistics.** The statistics computation suspends in the repository and finishes later, in `CompleteMonthlyStats`. It publishes the account's total income and expense over records of every date, and their difference. The computed month start is not used.

Amounts are exact reals. Ids, foreign keys and timestamps are Kotlin `Long` (a bounded subset type). The Kotlin field `type` of a record is called `kind`, because `type` is a Dafny keyword. The date formatter of `groupByDate` and the clock and calendar of the "today" totals are parameters.

Module layout, one file each:

- `Wrappers`: Option, Result, Outcome.
- `Entities`: the two entities.
- `Tables`: id-keyed tables, sort, sums.
- `Criteria`: WHERE clauses as data.
- `Store`: the DAOs.
- `StoreLaws`: laws across several statements.
- `DatabaseScenarios`: the scenarios of the instrumented database test.
- `Grouping`: `RecordAdapter.kt`.
- `AccountCards`: `AccountCardAdapter.kt`.
- `AccountViewModels` and `RecordViewModels`: the two view models.

## Model

| member | source | states |
|---|---|---|
| Entities.NewAccount | app/src/main/java/com/example/personalincomeandexpenditureaccountingsystem/data/entity/Account.kt:7-12 | an account made from a name alone has id 0 (generate on insert) and balance 0.0 |
| Entities.NewRecord | app/src/main/java/com/example/personalincomeandexpenditureaccountingsystem/data/entity/Record.kt:18-28 | a record made without id and note has id 0 and note "", other fields as given |
| Tables.Find | app/src/main/java/com/example/personalincomeandexpenditureaccountingsystem/data/dao/AccountDao.kt:41-42 | finds a row exactly when the key is present; with unique keys it is that row |
| Tables.Replace | app/src/main/java/com/example/personalincomeandexpenditureaccountingsystem/data/dao/AccountDao.kt:23-24 | update by primary key: the table keeps its length, every row with that key becomes the new row, every other row stays where it was |
| Tables.ReplaceKeys | app/src/main/java/com/example/personalincomeandexpenditureaccountingsystem/data/dao/AccountDao.kt:23-24 | an update keeps the key set and unique keys, and an absent key changes nothing |
| Tables.Remove | app/src/main/java/com/example/personalincomeandexpenditureaccountingsystem/data/dao/AccountDao.kt:35-36 | delete by key: exactly the rows with other keys remain, the key leaves the key set, an absent key changes nothing |
| Tables.SortDesc | app/src/main/java/com/example/personalincomeandexpenditureaccountingsystem/data/dao/RecordDao.kt:47-48 | ORDER BY DESC: a permutation of the rows with non-increasing keys |
| Tables.SortDescOfSorted | app/src/main/java/com/example/personalincomeandexpenditureaccountingsystem/ui/viewmodel/RecordViewModel.kt:63-64 | the sort is stable: rows already in order come back unchanged |
| Tables.SortDescStrict | app/src/main/java/com/example/personalincomeandexpenditureaccountingsystem/data/dao/AccountDao.kt:47-54 | with unique keys the sorted keys strictly decrease |
| Tables.SumPermutation | app/src/main/java/com/example/personalincomeandexpenditureaccountingsystem/data/dao/RecordDao.kt:83-84 | SUM does not depend on row order |
| Tables.SumNonNegative | app/src/main/java/com/example/personalincomeandexpenditureaccountingsystem/ui/viewmodel/AccountViewModel.kt:133-135 | a sum of non-negative values is non-negative |
| Criteria.Select | app/src/main/java/com/example/personalincomeandexpenditureaccountingsystem/data/dao/RecordDao.kt:59-60 | a WHERE clause keeps exactly the matching rows and never more rows than the table has |
| Criteria.SelectCount | app/src/main/java/com/example/personalincomeandexpenditureaccountingsystem/data/dao/RecordDao.kt:59-60 | each matching row is selected as often as it occurs in the table, no other row at all |
| Criteria.SelectSelect | app/src/main/java/com/example/personalincomeandexpenditureaccountingsystem/data/dao/RecordDao.kt:59-66 | filtering by one condition and then another is filtering by their conjunction |
| Store.ChangeBalance | app/src/main/java/com/example/personalincomeandexpenditureaccountingsystem/data/dao/AccountDao.kt:65-78 | a balance statement keeps every id and name, changes only the balance of rows with that id, and leaves other rows unchanged |
| Store.GetAccountById | app/src/main/java/com/example/personalincomeandexpenditureaccountingsystem/data/dao/AccountDao.kt:41-42 | present exactly when the id is in the table, then the row with that id; absent otherwise |
| Store.GetAllAccounts | app/src/main/java/com/example/personalincomeandexpenditureaccountingsystem/data/dao/AccountDao.kt:47-54 | every account exactly once (a permutation of the table), ids strictly decreasing |
| Store.GetAccountByName | app/src/main/java/com/example/personalincomeandexpenditureaccountingsystem/data/dao/AccountDao.kt:59-60 | present exactly when some account has the name; the row has that name and the smallest id among them |
| Store.GetRecordById | app/src/main/java/com/example/personalincomeandexpenditureaccountingsystem/data/dao/RecordDao.kt:41-42 | present exactly when the id is in the table, then the row with that id |
| Store.RecordsWhere | app/src/main/java/com/example/personalincomeandexpenditureaccountingsystem/data/dao/RecordDao.kt:47-72 | the selected rows, each as often as in the table, dates non-increasing |
| Store.GetAllRecordsByAccountId | app/src/main/java/com/example/personalincomeandexpenditureaccountingsystem/data/dao/RecordDao.kt:47-54 | exactly the account's records, as a permutation of the filtered table, dates non-increasing |
| Store.GetRecordsByDateRange | app/src/main/java/com/example/personalincomeandexpenditureaccountingsystem/data/dao/RecordDao.kt:59-60 | exactly the account's records with start <= date <= end (both bounds included), dates non-increasing |
| Store.GetRecordsByType | app/src/main/java/com/example/personalincomeandexpenditureaccountingsystem/data/dao/RecordDao.kt:65-66 | exactly the account's records of that type, dates non-increasing |
| Store.GetRecordsByCategory | app/src/main/java/com/example/personalincomeandexpenditureaccountingsystem/data/dao/RecordDao.kt:71-72 | exactly the account's records of that category, dates non-increasing |
| Store.TotalOfKind | app/src/main/java/com/example/personalincomeandexpenditureaccountingsystem/data/dao/RecordDao.kt:83-90 | COALESCE: 0.0 when no record of the account has the type |
| Store.TotalMatchesTypeQuery | app/src/main/java/com/example/personalincomeandexpenditureaccountingsystem/data/dao/RecordDao.kt:65-90 | a total equals the sum of the amounts the type query returns for that account and type |
| Store.GetTotalIncome | app/src/main/java/com/example/personalincomeandexpenditureaccountingsystem/data/dao/RecordDao.kt:83-84 | 0.0 when the account has no "income" record |
| Store.GetTotalExpense | app/src/main/java/com/example/personalincomeandexpenditureaccountingsystem/data/dao/RecordDao.kt:89-90 | 0.0 when the account has no "expense" record |
| Store.Database.constructor | app/src/androidTest/java/com/example/personalincomeandexpenditureaccountingsystem/DatabaseTest.kt:19-23 | a newly created database has empty tables and both AUTOINCREMENT counters at 0 (the test opens the app's persistent database, which need not be new) |
| Store.Database.InsertAccount | app/src/main/java/com/example/personalincomeandexpenditureaccountingsystem/data/dao/AccountDao.kt:17-18 | fails exactly on an exhausted counter or a taken explicit id, changing nothing; otherwise appends the row with the returned id (a fresh, never-used id for id 0), and reading that id back gives the name and balance inserted; the store invariant (unique ids, foreign keys) is kept |
| Store.Database.UpdateAccount | app/src/main/java/com/example/personalincomeandexpenditureaccountingsystem/data/dao/AccountDao.kt:23-24 | the account table becomes the by-key replacement; records and counters unchanged |
| Store.Database.DeleteAccount | app/src/main/java/com/example/personalincomeandexpenditureaccountingsystem/data/dao/AccountDao.kt:29-30 | removes that account's row and, by the cascade, exactly its records |
| Store.Database.DeleteAccountById | app/src/main/java/com/example/personalincomeandexpenditureaccountingsystem/data/dao/AccountDao.kt:35-36 | the same as delete, given the id |
| Store.Database.ChangeAccountBalance | app/src/main/java/com/example/personalincomeandexpenditureaccountingsystem/data/dao/AccountDao.kt:65-78 | the account table becomes the balance change of the old one; nothing else changes |
| Store.Database.UpdateBalance | app/src/main/java/com/example/personalincomeandexpenditureaccountingsystem/data/dao/AccountDao.kt:65-66 | sets only that row's balance |
| Store.Database.AddBalance | app/src/main/java/com/example/personalincomeandexpenditureaccountingsystem/data/dao/AccountDao.kt:71-72 | raises only that row's balance by the amount |
| Store.Database.SubtractBalance | app/src/main/java/com/example/personalincomeandexpenditureaccountingsystem/data/dao/AccountDao.kt:77-78 | lowers only that row's balance by the amount |
| Store.Database.InsertRecord | app/src/main/java/com/example/personalincomeandexpenditureaccountingsystem/data/dao/RecordDao.kt:17-18 | fails exactly on an exhausted counter, a taken id or an unknown account, leaving both tables unchanged; otherwise appends the row with the returned id, and reading it back gives the record inserted |
| Store.Database.UpdateRecord | app/src/main/java/com/example/personalincomeandexpenditureaccountingsystem/data/dao/RecordDao.kt:23-24 | fails exactly when the row exists and its new account does not; otherwise the by-key replacement |
| Store.Database.DeleteRecord | app/src/main/java/com/example/personalincomeandexpenditureaccountingsystem/data/dao/RecordDao.kt:29-30 | removes at most the record with that id; accounts unchanged |
| Store.Database.DeleteRecordById | app/src/main/java/com/example/personalincomeandexpenditureaccountingsystem/data/dao/RecordDao.kt:35-36 | the same, given the id |
| Store.Database.DeleteAllRecordsByAccountId | app/src/main/java/com/example/personalincomeandexpenditureaccountingsystem/data/dao/RecordDao.kt:77-78 | removes exactly that account's records; accounts unchanged |
| StoreLaws.ChangeBalanceAbsent | app/src/main/java/com/example/personalincomeandexpenditureaccountingsystem/data/dao/AccountDao.kt:65-78 | a balance statement on an absent id changes nothing |
| StoreLaws.BalanceRoundTrip | app/src/main/java/com/example/personalincomeandexpenditureaccountingsystem/data/dao/AccountDao.kt:71-78 | addBalance(id, x) then subtractBalance(id, x) restores the table |
| StoreLaws.ChangeBalanceTotal | app/src/main/java/com/example/personalincomeandexpenditureaccountingsystem/data/dao/AccountDao.kt:65-78 | with unique ids the sum of balances moves by exactly the named row's change, and not at all for an absent id |
| StoreLaws.AddBalanceTotal | app/src/main/java/com/example/personalincomeandexpenditureaccountingsystem/data/dao/AccountDao.kt:71-72 | addBalance(id, x) raises the sum of all balances by x when id exists |
| StoreLaws.SubtractBalanceTotal | app/src/main/java/com/example/personalincomeandexpenditureaccountingsystem/data/dao/AccountDao.kt:77-78 | subtractBalance(id, x) lowers the sum of all balances by x when id exists |
| StoreLaws.CascadeClearsAccount | app/src/main/java/com/example/personalincomeandexpenditureaccountingsystem/data/entity/Record.kt:9-16 | after the cascade the account has no records and both totals are 0.0 |
| StoreLaws.CascadeKeepsOthers | app/src/main/java/com/example/personalincomeandexpenditureaccountingsystem/data/entity/Record.kt:9-16 | the cascade leaves every other account's record list and totals exactly as they were |
| StoreLaws.TotalAfterAppend | app/src/main/java/com/example/personalincomeandexpenditureaccountingsystem/data/dao/RecordDao.kt:83-90 | a new record moves a total by its amount exactly when it has that account and type |
| StoreLaws.IncomeAfterInsert | app/src/main/java/com/example/personalincomeandexpenditureaccountingsystem/data/dao/RecordDao.kt:83-84 | a new income record raises its account's income by its amount and leaves the expense unchanged |
| StoreLaws.ExpenseAfterInsert | app/src/main/java/com/example/personalincomeandexpenditureaccountingsystem/data/dao/RecordDao.kt:89-90 | a new expense record raises its account's expense by its amount and leaves the income unchanged |
| DatabaseScenarios.InsertAndQueryAccount | app/src/androidTest/java/com/example/personalincomeandexpenditureaccountingsystem/DatabaseTest.kt:31-39 | on a new database the first account gets id 1 and reads back with its name and balance |
| DatabaseScenarios.InsertAndQueryRecord | app/src/androidTest/java/com/example/personalincomeandexpenditureaccountingsystem/DatabaseTest.kt:41-65 | a record of a new account gets id 1 and reads back with every field as given |
| DatabaseScenarios.ListTwoAccounts | app/src/androidTest/java/com/example/personalincomeandexpenditureaccountingsystem/DatabaseTest.kt:67-77 | two accounts are listed with the larger id first |
| DatabaseScenarios.MultipleAccounts | app/src/androidTest/java/com/example/personalincomeandexpenditureaccountingsystem/DatabaseTest.kt:67-77 | after two inserts the listing is both accounts, the newer (id 2) first |
| Grouping.GroupByDate | app/src/main/java/com/example/personalincomeandexpenditureaccountingsystem/ui/adapter/RecordAdapter.kt:177-196 | the loop's output equals the specification built record by record (empty input gives empty output) |
| Grouping.GroupedItems | app/src/main/java/com/example/personalincomeandexpenditureaccountingsystem/ui/adapter/RecordAdapter.kt:182-193 | dropping the headers gives back the input records in order |
| Grouping.GroupedLength | app/src/main/java/com/example/personalincomeandexpenditureaccountingsystem/ui/adapter/RecordAdapter.kt:182-193 | output length is input length plus the number of headers |
| Grouping.GroupedShape | app/src/main/java/com/example/personalincomeandexpenditureaccountingsystem/ui/adapter/RecordAdapter.kt:182-193 | never two headers in a row, and never a header at the end |
| Grouping.GroupedPositions | app/src/main/java/com/example/personalincomeandexpenditureaccountingsystem/ui/adapter/RecordAdapter.kt:183-189 | a header precedes record i exactly when i = 0 or its day differs from record i-1's, and that header shows record i's day |
| Grouping.OneHeaderPerDay | app/src/main/java/com/example/personalincomeandexpenditureaccountingsystem/ui/adapter/RecordAdapter.kt:180-189 | when each day's records are adjacent, header texts never repeat and are exactly the days present |
| Grouping.SortedInputHasContiguousDays | app/src/main/java/com/example/personalincomeandexpenditureaccountingsystem/ui/adapter/RecordAdapter.kt:179-183 | input ordered by date descending has each day's records adjacent, when days are intervals of time |
| Grouping.RecordDiffLaws | app/src/main/java/com/example/personalincomeandexpenditureaccountingsystem/ui/adapter/RecordAdapter.kt:158-172 | headers match by date and items by record id, a header never matches an item, identity is an equivalence, equal contents imply same identity |
| AccountCards.AccountDiffLaws | app/src/main/java/com/example/personalincomeandexpenditureaccountingsystem/ui/adapter/AccountCardAdapter.kt:54-62 | same item iff same id; same contents iff id, name and balance all agree; contents imply items; reflexive, symmetric, transitive |
| AccountViewModels.FailureMessage | app/src/main/java/com/example/personalincomeandexpenditureaccountingsystem/ui/viewmodel/AccountViewModel.kt:73-75 | a command fails exactly when the call threw or the store refused, and the message starts with the command's prefix |
| AccountViewModels.AccountViewModel.constructor | app/src/main/java/com/example/personalincomeandexpenditureaccountingsystem/ui/viewmodel/AccountViewModel.kt:20-37 | empty list, no messages, and init's load already started (loading raised, one collection) |
| AccountViewModels.AccountViewModel.LoadAllAccounts | app/src/main/java/com/example/personalincomeandexpenditureaccountingsystem/ui/viewmodel/AccountViewModel.kt:42-45 | raises loading and starts one more collection; nothing else changes |
| AccountViewModels.AccountViewModel.DeliverAccounts | app/src/main/java/com/example/personalincomeandexpenditureaccountingsystem/ui/viewmodel/AccountViewModel.kt:50-53 | the list becomes the accounts query result (every account once, ids strictly decreasing), loading ends, total and count match the table |
| AccountViewModels.AccountViewModel.AccountsLoadFailed | app/src/main/java/com/example/personalincomeandexpenditureaccountingsystem/ui/viewmodel/AccountViewModel.kt:47-49 | the load error is shown, loading is left as it was, the collection ends |
| AccountViewModels.AccountViewModel.AddAccount | app/src/main/java/com/example/personalincomeandexpenditureaccountingsystem/ui/viewmodel/AccountViewModel.kt:64-78 | on failure: error set, loading off, success message, list and tables unchanged; on success: the account is appended under the next id, the message names it, and a reload starts |
| AccountViewModels.AccountViewModel.UpdateAccount | app/src/main/java/com/example/personalincomeandexpenditureaccountingsystem/ui/viewmodel/AccountViewModel.kt:83-96 | on failure: error set, loading off, tables unchanged; on success: the row is replaced, "updated" message, reload started |
| AccountViewModels.AccountViewModel.DeleteAccount | app/src/main/java/com/example/personalincomeandexpenditureaccountingsystem/ui/viewmodel/AccountViewModel.kt:101-114 | on failure: error set, loading off, tables unchanged; on success: the account and its records are gone, "deleted" message, reload started |
| AccountViewModels.AccountViewModel.ClearErrorMessage | app/src/main/java/com/example/personalincomeandexpenditureaccountingsystem/ui/viewmodel/AccountViewModel.kt:119-121 | clears only the error |
| AccountViewModels.AccountViewModel.ClearSuccessMessage | app/src/main/java/com/example/personalincomeandexpenditureaccountingsystem/ui/viewmodel/AccountViewModel.kt:126-128 | clears only the success message |
| AccountViewModels.AccountViewModel.GetTotalBalance | app/src/main/java/com/example/personalincomeandexpenditureaccountingsystem/ui/viewmodel/AccountViewModel.kt:133-135 | 0.0 for an empty list, non-negative when every balance is |
| AccountViewModels.AccountViewModel.GetAccountCount | app/src/main/java/com/example/personalincomeandexpenditureaccountingsystem/ui/viewmodel/AccountViewModel.kt:140-142 | zero exactly when the list is empty |
| AccountViewModels.ListedAccounts | app/src/main/java/com/example/personalincomeandexpenditureaccountingsystem/ui/viewmodel/AccountViewModel.kt:50-53 | the delivered listing holds every account once, ids strictly decreasing, with the table's balance sum and size |
| AccountViewModels.TotalBalanceOrderFree | app/src/main/java/com/example/personalincomeandexpenditureaccountingsystem/ui/viewmodel/AccountViewModel.kt:133-135 | the total does not depend on the order of the list |
| RecordViewModels.StatsAfterInsert | app/src/main/java/com/example/personalincomeandexpenditureaccountingsystem/ui/viewmodel/RecordViewModel.kt:145-154 | a new record of any date moves the statistics by its amount: income and balance up for income, expense up and balance down for expense |
| RecordViewModels.DeliveredListKeepsOrder | app/src/main/java/com/example/personalincomeandexpenditureaccountingsystem/ui/viewmodel/RecordViewModel.kt:63-64 | re-sorting a delivered list by date changes nothing |
| RecordViewModels.TodayTotalOfDelivered | app/src/main/java/com/example/personalincomeandexpenditureaccountingsystem/ui/viewmodel/RecordViewModel.kt:192-194 | a "today" total over a delivered list equals the sum over the date-range query for that account, restricted to the type |
| RecordViewModels.TodayTotal | app/src/main/java/com/example/personalincomeandexpenditureaccountingsystem/ui/viewmodel/RecordViewModel.kt:192-194 | 0.0 for an empty window or when no record has the type, non-negative over non-negative amounts |
| RecordViewModels.RecordViewModel.constructor | app/src/main/java/com/example/personalincomeandexpenditureaccountingsystem/ui/viewmodel/RecordViewModel.kt:20-41 | empty list, no account, not loading, no messages, zero statistics |
| RecordViewModels.RecordViewModel.LoadRecordsByAccountId | app/src/main/java/com/example/personalincomeandexpenditureaccountingsystem/ui/viewmodel/RecordViewModel.kt:55-58 | raises loading and starts a collection for that account |
| RecordViewModels.RecordViewModel.CalculateMonthlyStats | app/src/main/java/com/example/personalincomeandexpenditureaccountingsystem/ui/viewmodel/RecordViewModel.kt:135-147 | launches one statistics computation for that account |
| RecordViewModels.RecordViewModel.SetCurrentAccount | app/src/main/java/com/example/personalincomeandexpenditureaccountingsystem/ui/viewmodel/RecordViewModel.kt:46-50 | the current account becomes the id; a load and a statistics computation start for it |
| RecordViewModels.RecordViewModel.DeliverRecords | app/src/main/java/com/example/personalincomeandexpenditureaccountingsystem/ui/viewmodel/RecordViewModel.kt:63-66 | an emission of a collection for an account: the list becomes exactly that account's records, dates non-increasing, and loading ends |
| RecordViewModels.RecordViewModel.RecordsLoadFailed | app/src/main/java/com/example/personalincomeandexpenditureaccountingsystem/ui/viewmodel/RecordViewModel.kt:60-62 | the load error is shown, loading is left as it was, the collection ends |
| RecordViewModels.RecordViewModel.CompleteMonthlyStats | app/src/main/java/com/example/personalincomeandexpenditureaccountingsystem/ui/viewmodel/RecordViewModel.kt:147-157 | publishes the account's income, expense and their difference over the current table, or shows the error and keeps the old statistics |
| RecordViewModels.RecordViewModel.ReloadCurrent | app/src/main/java/com/example/personalincomeandexpenditureaccountingsystem/ui/viewmodel/RecordViewModel.kt:83-86 | loading ends, then reload and statistics start only if an account is selected |
| RecordViewModels.RecordViewModel.AddRecord | app/src/main/java/com/example/personalincomeandexpenditureaccountingsystem/ui/viewmodel/RecordViewModel.kt:77-92 | on failure: error set, loading off, tables unchanged; on success: the record is appended under the next id, "saved" message, reload of the current account if any |
| RecordViewModels.RecordViewModel.UpdateRecord | app/src/main/java/com/example/personalincomeandexpenditureaccountingsystem/ui/viewmodel/RecordViewModel.kt:97-111 | on failure (including a move to a missing account): error set, loading off; on success: by-key replacement, message, reload if an account is selected |
| RecordViewModels.RecordViewModel.DeleteRecord | app/src/main/java/com/example/personalincomeandexpenditureaccountingsystem/ui/viewmodel/RecordViewModel.kt:116-130 | on failure: error set, loading off; on success: the record with that id is gone, message, reload if an account is selected |
| RecordViewModels.RecordViewModel.ClearErrorMessage | app/src/main/java/com/example/personalincomeandexpenditureaccountingsystem/ui/viewmodel/RecordViewModel.kt:164-166 | clears only the error |
| RecordViewModels.RecordViewModel.ClearSuccessMessage | app/src/main/java/com/example/personalincomeandexpenditureaccountingsystem/ui/viewmodel/RecordViewModel.kt:171-173 | clears only the success message |
| RecordViewModels.RecordViewModel.GetTodayExpense | app/src/main/java/com/example/personalincomeandexpenditureaccountingsystem/ui/viewmodel/RecordViewModel.kt:178-195 | 0.0 for an empty window or without expense records, non-negative over non-negative amounts |
| RecordViewModels.RecordViewModel.GetTodayIncome | app/src/main/java/com/example/personalincomeandexpenditureaccountingsystem/ui/viewmodel/RecordViewModel.kt:200-217 | the same for income records |
| RecordViewModels.RecordViewModel.GetRecordCount | app/src/main/java/com/example/personalincomeandexpenditureaccountingsystem/ui/viewmodel/RecordViewModel.kt:222-224 | zero exactly when the list is empty |

## Left out

- Floating point: amounts and balances are exact reals, so `Double` rounding in sums and balance updates is not modelled.
- Coroutine scheduling: each command runs to completion in one step. Interleavings between a command's suspension points are not modelled, nor is the order in which pending emissions arrive. Flow emissions and the end of a statistics computation are separate methods the environment may call in any order.
- View-model clearing: cancelling the view-model scope, and the outer `catch (e: Exception)` of the loads that the cancellation exception would reach. The flow's own `catch` handles every other failure of the query, and collecting a list throws nothing, so that outer handler is not reachable otherwise.
- Exception texts: for store failures the message detail is the constraint text of SQLite. For other failures it is whatever the caller passes as `fault`.
- Clock and calendar: `System.currentTimeMillis` and the `Calendar` arithmetic that computes the day and month bounds. The day bounds of the "today" totals are parameters. The month start is computed and never used, so it is not modelled.
- Date formatting: `SimpleDateFormat("yyyy-MM-dd EEEE", Locale.CHINA)` in `groupByDate` is the parameter `day`. The lemma about sorted input assumes only that each formatted day covers one interval of time.
- The repositories (`AccountRepository.kt`, `RecordRepository.kt`) only delegate to the DAOs, so the view models call the store directly.
- Android classes: the database builder and migrations, the persistence of the database file between runs, `MainActivity`, the adapters' view holders and `ViewModelFactory`.
- Store.GetAccountByName: SQL fixes no order for several accounts with the same name. The model returns the one with the smallest id, the first in table scan order.
- Store.TotalOfKind: its own contract states only the COALESCE case. That the total is the sum over the type query is the lemma Store.TotalMatchesTypeQuery.
- Store.GetTotalIncome: its own contract states only the COALESCE case. Its value as a sum is Store.TotalMatchesTypeQuery with the type "income".
- Store.GetTotalExpense: its own contract states only the COALESCE case. Its value as a sum is Store.TotalMatchesTypeQuery with the type "expense".
