/**
 * RecordViewModel.kt: the record screen's state, its commands, the launched
 * statistics computation and the "today" totals.
 *
 * As in AccountViewModel.kt, a command runs its repository call and the rest
 * of its coroutine at once, `fault` stands for an exception the store does not
 * model, and each emission of a `getAllRecordsByAccountId` collection is the
 * method `DeliverRecords`. Collections are kept per account id, oldest first:
 * the source never cancels one when the current account changes. A launched
 * statistics computation suspends in the repository and finishes later, in
 * `CompleteMonthlyStats`. The clock and `Calendar` are left to the caller:
 * the day bounds of the "today" totals are parameters.
 */
module RecordViewModels {
  import opened Wrappers
  import opened Entities
  import opened Tables
  import opened Criteria
  import opened Store
  import opened StoreLaws
  import opened AccountViewModels

  /** `MonthlyStats`, all 0.0 by default. */
  datatype MonthlyStats = MonthlyStats(income: real, expense: real, balance: real)

  const NoStats := MonthlyStats(0.0, 0.0, 0.0)

  /**
   * What `calculateMonthlyStats(a)` publishes over the record table: the
   * account's total income and total expense, of every date, and their difference.
   */
  function StatsOf(rs: seq<Record>, a: int): MonthlyStats {
    var income := GetTotalIncome(rs, a);
    var expense := GetTotalExpense(rs, a);
    MonthlyStats(income, expense, income - expense)
  }

  /**
   * A new record of the account moves its statistics by its amount, whatever
   * its date: income and balance up for income, expense up and balance down
   * for expense, nothing for any other type.
   */
  lemma StatsAfterInsert(rs: seq<Record>, x: Record)
    ensures StatsOf(rs + [x], x.accountId).income
            == StatsOf(rs, x.accountId).income + if x.kind == Income then x.amount else 0.0
    ensures StatsOf(rs + [x], x.accountId).expense
            == StatsOf(rs, x.accountId).expense + if x.kind == Expense then x.amount else 0.0
    ensures StatsOf(rs + [x], x.accountId).balance
            == StatsOf(rs, x.accountId).balance + (if x.kind == Income then x.amount else 0.0)
                                               - (if x.kind == Expense then x.amount else 0.0)
  {
    TotalAfterAppend(rs, x, x.accountId, Income);
    TotalAfterAppend(rs, x, x.accountId, Expense);
  }

  /**
   * The view model's `sortedByDescending { it.date }` of a delivered list
   * changes nothing: the query already orders by date, and the sort is stable.
   */
  lemma DeliveredListKeepsOrder(rs: seq<Record>, a: int)
    ensures SortDesc(GetAllRecordsByAccountId(rs, a), RecordDate) == GetAllRecordsByAccountId(rs, a)
  {
    var list := GetAllRecordsByAccountId(rs, a);
    assert SortedDesc(list, RecordDate) by {
      forall i, j | 0 <= i < j < |list| ensures RecordDate(list[i]) >= RecordDate(list[j]) {
      }
    }
    SortDescOfSorted(list, RecordDate);
  }

  /** The `filter` of the "today" totals: records of one type dated within `[dayStart, dayEnd]`. */
  function TodayFilter(kind: string, dayStart: int, dayEnd: int): Criterion {
    And(KindIs(kind), DateBetween(dayStart, dayEnd))
  }

  /**
   * A "today" total computed over a delivered list, that is over the account's
   * records as `getAllRecordsByAccountId` returns them, equals the sum over the
   * DAO's date-range query for that account restricted to the type.
   */
  lemma TodayTotalOfDelivered(rs: seq<Record>, a: int, kind: string, dayStart: int, dayEnd: int)
    ensures SumAmounts(Select(GetAllRecordsByAccountId(rs, a), TodayFilter(kind, dayStart, dayEnd)))
            == SumAmounts(Select(GetRecordsByDateRange(rs, a, dayStart, dayEnd), KindIs(kind)))
  {
    var listed := GetAllRecordsByAccountId(rs, a);
    var ranged := GetRecordsByDateRange(rs, a, dayStart, dayEnd);
    var f := TodayFilter(kind, dayStart, dayEnd);
    var both := And(AccountIs(a), f);
    // the delivered list, filtered, is the table filtered by account and filter
    SelectPermutation(listed, Select(rs, AccountIs(a)), f);
    SelectSelect(rs, AccountIs(a), f);
    // the date-range query, filtered by type, is the same filter of the table
    SelectPermutation(ranged, Select(rs, And(AccountIs(a), DateBetween(dayStart, dayEnd))), KindIs(kind));
    SelectSelect(rs, And(AccountIs(a), DateBetween(dayStart, dayEnd)), KindIs(kind));
    SelectEquivalent(rs, And(And(AccountIs(a), DateBetween(dayStart, dayEnd)), KindIs(kind)), both);
    SumPermutation(Select(listed, f), Select(ranged, KindIs(kind)), RecordAmount);
  }

  class RecordViewModel {
    const repository: Database
    /** `records`: the last delivered list. */
    var records: seq<Record>
    var currentAccountId: Option<Long>
    var isLoading: bool
    var errorMessage: Option<string>
    var successMessage: Option<string>
    var monthlyStats: MonthlyStats
    /** Account ids of the record collections started and not ended by a failure, one per collection. */
    var collectors: multiset<Long>
    /** Account ids of the statistics computations launched and not finished, one per computation. */
    var pendingStats: multiset<Long>

    /** The field initialisers; this view model loads nothing until an account is chosen. */
    constructor (repository: Database)
      ensures this.repository == repository
      ensures records == [] && currentAccountId == None && !isLoading
      ensures errorMessage == None && successMessage == None && monthlyStats == NoStats
      ensures collectors == multiset{} && pendingStats == multiset{}
    {
      this.repository := repository;
      records := [];
      currentAccountId := None;
      isLoading := false;
      errorMessage := None;
      successMessage := None;
      monthlyStats := NoStats;
      collectors := multiset{};
      pendingStats := multiset{};
    }

    /** `loadRecordsByAccountId`: raises the loading flag and starts a collection for that account. */
    method LoadRecordsByAccountId(accountId: Long)
      modifies this
      ensures isLoading && collectors == old(collectors) + multiset{accountId}
      ensures records == old(records) && currentAccountId == old(currentAccountId)
      ensures errorMessage == old(errorMessage) && successMessage == old(successMessage)
      ensures monthlyStats == old(monthlyStats) && pendingStats == old(pendingStats)
    {
      isLoading := true;
      collectors := collectors + multiset{accountId};
    }

    /** `calculateMonthlyStats`: launched; it suspends in the repository until `CompleteMonthlyStats`. */
    method CalculateMonthlyStats(accountId: Long)
      modifies this
      ensures pendingStats == old(pendingStats) + multiset{accountId}
      ensures records == old(records) && currentAccountId == old(currentAccountId) && isLoading == old(isLoading)
      ensures errorMessage == old(errorMessage) && successMessage == old(successMessage)
      ensures monthlyStats == old(monthlyStats) && collectors == old(collectors)
    {
      pendingStats := pendingStats + multiset{accountId};
    }

    /** `setCurrentAccount`: records the choice, starts loading its records and computing its statistics. */
    method SetCurrentAccount(accountId: Long)
      modifies this
      ensures currentAccountId == Some(accountId)
      ensures isLoading && collectors == old(collectors) + multiset{accountId}
      ensures pendingStats == old(pendingStats) + multiset{accountId}
      ensures records == old(records) && monthlyStats == old(monthlyStats)
      ensures errorMessage == old(errorMessage) && successMessage == old(successMessage)
    {
      currentAccountId := Some(accountId);
      LoadRecordsByAccountId(accountId);
      CalculateMonthlyStats(accountId);
    }

    /**
     * One emission of a collection for `accountId`: that account's records,
     * re-sorted by date descending, become the list and loading ends. The query
     * already returns them in that order, and the stable re-sort keeps it.
     */
    method DeliverRecords(accountId: Long)
      requires accountId in collectors
      modifies this
      ensures collectors == old(collectors) && pendingStats == old(pendingStats)
      ensures records == GetAllRecordsByAccountId(repository.records, accountId)
      ensures forall x :: x in records <==> x in repository.records && x.accountId == accountId
      ensures forall i, j :: 0 <= i < j < |records| ==> records[i].date >= records[j].date
      ensures !isLoading
      ensures currentAccountId == old(currentAccountId) && monthlyStats == old(monthlyStats)
      ensures errorMessage == old(errorMessage) && successMessage == old(successMessage)
    {
      var list := GetAllRecordsByAccountId(repository.records, accountId);
      DeliveredListKeepsOrder(repository.records, accountId);
      records := SortDesc(list, RecordDate);
      isLoading := false;
    }

    /** The flow's `catch` in a collection for `accountId`: the error is shown, loading stays, and that collection ends. */
    method RecordsLoadFailed(accountId: Long, detail: string)
      requires accountId in collectors
      modifies this
      ensures errorMessage == Some("加载记录失败: " + detail)
      ensures collectors == old(collectors) - multiset{accountId}
      ensures records == old(records) && isLoading == old(isLoading)
      ensures currentAccountId == old(currentAccountId) && monthlyStats == old(monthlyStats)
      ensures successMessage == old(successMessage) && pendingStats == old(pendingStats)
    {
      errorMessage := Some("加载记录失败: " + detail);
      collectors := collectors - multiset{accountId};
    }

    /**
     * A launched computation for `accountId` finishes: it publishes that
     * account's statistics over the current table, or, if a repository call
     * threw, shows the error and leaves the statistics as they were.
     */
    method CompleteMonthlyStats(accountId: Long, fault: Option<string>)
      requires accountId in pendingStats
      modifies this
      ensures pendingStats == old(pendingStats) - multiset{accountId}
      ensures fault.None? ==> monthlyStats == StatsOf(repository.records, accountId)
      ensures fault.None? ==> errorMessage == old(errorMessage)
      ensures fault.Some? ==> monthlyStats == old(monthlyStats)
      ensures fault.Some? ==> errorMessage == Some("计算统计数据失败: " + fault.value)
      ensures records == old(records) && isLoading == old(isLoading)
      ensures currentAccountId == old(currentAccountId) && collectors == old(collectors)
      ensures successMessage == old(successMessage)
    {
      pendingStats := pendingStats - multiset{accountId};
      if fault.Some? {
        errorMessage := Some("计算统计数据失败: " + fault.value);
      } else {
        monthlyStats := StatsOf(repository.records, accountId);
      }
    }

    /** After a successful command: loading ends, then the current account, if any, is reloaded. */
    method ReloadCurrent()
      modifies this
      ensures isLoading == currentAccountId.Some?
      ensures collectors == old(collectors) + (if currentAccountId.Some? then multiset{currentAccountId.value} else multiset{})
      ensures pendingStats == old(pendingStats) + (if currentAccountId.Some? then multiset{currentAccountId.value} else multiset{})
      ensures records == old(records) && currentAccountId == old(currentAccountId)
      ensures errorMessage == old(errorMessage) && successMessage == old(successMessage)
      ensures monthlyStats == old(monthlyStats)
    {
      isLoading := false;
      if currentAccountId.Some? {
        LoadRecordsByAccountId(currentAccountId.value);
        CalculateMonthlyStats(currentAccountId.value);
      }
    }

    /** `addRecord`: on success the record is stored under the next id and the current account reloads. */
    method AddRecord(record: Record, fault: Option<string>)
      requires repository.Valid()
      modifies this, repository
      ensures repository.Valid()
      ensures var failure := FailureMessage("保存记录失败: ", fault, old(repository.RecordInsertError(record)));
        && (failure.Some? ==>
              && errorMessage == failure && !isLoading
              && successMessage == old(successMessage)
              && collectors == old(collectors) && pendingStats == old(pendingStats)
              && repository.accounts == old(repository.accounts) && repository.records == old(repository.records))
        && (failure.None? ==>
              && successMessage == Some("记录已保存")
              && repository.records == old(repository.records) + [record.(id := old(repository.NextRecordId(record)))]
              && repository.accounts == old(repository.accounts)
              && errorMessage == old(errorMessage) && isLoading == currentAccountId.Some?
              && collectors == old(collectors) + (if currentAccountId.Some? then multiset{currentAccountId.value} else multiset{})
              && pendingStats == old(pendingStats) + (if currentAccountId.Some? then multiset{currentAccountId.value} else multiset{}))
      ensures records == old(records) && currentAccountId == old(currentAccountId) && monthlyStats == old(monthlyStats)
    {
      isLoading := true;
      if fault.Some? {
        errorMessage := Some("保存记录失败: " + fault.value);
        isLoading := false;
        return;
      }
      var r := repository.InsertRecord(record);
      if r.Err? {
        errorMessage := Some("保存记录失败: " + Describe(r.error));
        isLoading := false;
        return;
      }
      successMessage := Some("记录已保存");
      ReloadCurrent();
    }

    /** `updateRecord`: on success the row with the record's id is replaced and the current account reloads. */
    method UpdateRecord(record: Record, fault: Option<string>)
      requires repository.Valid()
      modifies this, repository
      ensures repository.Valid()
      ensures var failure := FailureMessage("更新记录失败: ", fault, old(repository.RecordUpdateError(record)));
        && (failure.Some? ==>
              && errorMessage == failure && !isLoading
              && successMessage == old(successMessage)
              && collectors == old(collectors) && pendingStats == old(pendingStats)
              && repository.accounts == old(repository.accounts) && repository.records == old(repository.records))
        && (failure.None? ==>
              && successMessage == Some("记录已更新")
              && repository.records == Replace(old(repository.records), RecordKey, record)
              && repository.accounts == old(repository.accounts)
              && errorMessage == old(errorMessage) && isLoading == currentAccountId.Some?
              && collectors == old(collectors) + (if currentAccountId.Some? then multiset{currentAccountId.value} else multiset{})
              && pendingStats == old(pendingStats) + (if currentAccountId.Some? then multiset{currentAccountId.value} else multiset{}))
      ensures records == old(records) && currentAccountId == old(currentAccountId) && monthlyStats == old(monthlyStats)
    {
      isLoading := true;
      if fault.Some? {
        errorMessage := Some("更新记录失败: " + fault.value);
        isLoading := false;
        return;
      }
      var r := repository.UpdateRecord(record);
      if r.Fail? {
        errorMessage := Some("更新记录失败: " + Describe(r.error));
        isLoading := false;
        return;
      }
      successMessage := Some("记录已更新");
      ReloadCurrent();
    }

    /** `deleteRecord`: on success the row with the record's id is gone and the current account reloads. */
    method DeleteRecord(record: Record, fault: Option<string>)
      requires repository.Valid()
      modifies this, repository
      ensures repository.Valid()
      ensures fault.Some? ==>
                && errorMessage == Some("删除记录失败: " + fault.value) && !isLoading
                && successMessage == old(successMessage)
                && collectors == old(collectors) && pendingStats == old(pendingStats)
                && repository.accounts == old(repository.accounts) && repository.records == old(repository.records)
      ensures fault.None? ==>
                && successMessage == Some("记录已删除")
                && repository.records == Remove(old(repository.records), RecordKey, record.id)
                && repository.accounts == old(repository.accounts)
                && errorMessage == old(errorMessage) && isLoading == currentAccountId.Some?
                && collectors == old(collectors) + (if currentAccountId.Some? then multiset{currentAccountId.value} else multiset{})
                && pendingStats == old(pendingStats) + (if currentAccountId.Some? then multiset{currentAccountId.value} else multiset{})
      ensures records == old(records) && currentAccountId == old(currentAccountId) && monthlyStats == old(monthlyStats)
    {
      isLoading := true;
      if fault.Some? {
        errorMessage := Some("删除记录失败: " + fault.value);
        isLoading := false;
        return;
      }
      repository.DeleteRecord(record);
      successMessage := Some("记录已删除");
      ReloadCurrent();
    }

    method ClearErrorMessage()
      modifies this
      ensures errorMessage == None
      ensures successMessage == old(successMessage) && records == old(records)
      ensures currentAccountId == old(currentAccountId) && isLoading == old(isLoading)
      ensures monthlyStats == old(monthlyStats)
      ensures collectors == old(collectors) && pendingStats == old(pendingStats)
    {
      errorMessage := None;
    }

    method ClearSuccessMessage()
      modifies this
      ensures successMessage == None
      ensures errorMessage == old(errorMessage) && records == old(records)
      ensures currentAccountId == old(currentAccountId) && isLoading == old(isLoading)
      ensures monthlyStats == old(monthlyStats)
      ensures collectors == old(collectors) && pendingStats == old(pendingStats)
    {
      successMessage := None;
    }

    /**
     * `getTodayExpense`: the amounts of the listed expense records dated within
     * `[dayStart, dayEnd]`, both ends included.
     */
    function GetTodayExpense(dayStart: int, dayEnd: int): (r: real)
      reads this
      ensures dayEnd < dayStart ==> r == 0.0
      ensures (forall x :: x in records ==> x.amount >= 0.0) ==> r >= 0.0
      ensures (forall x :: x in records ==> x.kind != Expense) ==> r == 0.0
    {
      TodayTotal(records, Expense, dayStart, dayEnd)
    }

    /** `getTodayIncome`: the same over the listed income records. */
    function GetTodayIncome(dayStart: int, dayEnd: int): (r: real)
      reads this
      ensures dayEnd < dayStart ==> r == 0.0
      ensures (forall x :: x in records ==> x.amount >= 0.0) ==> r >= 0.0
      ensures (forall x :: x in records ==> x.kind != Income) ==> r == 0.0
    {
      TodayTotal(records, Income, dayStart, dayEnd)
    }

    /** `getRecordCount`. */
    function GetRecordCount(): (r: nat)
      reads this
      ensures r == 0 <==> |records| == 0
    {
      |records|
    }
  }

  /**
   * The sum behind both "today" totals: 0.0 for an empty window or when no
   * record has the type, and non-negative over non-negative amounts.
   */
  function TodayTotal(rs: seq<Record>, kind: string, dayStart: int, dayEnd: int): (r: real)
    ensures dayEnd < dayStart ==> r == 0.0
    ensures (forall x :: x in rs ==> x.kind != kind) ==> r == 0.0
    ensures (forall x :: x in rs ==> x.amount >= 0.0) ==> r >= 0.0
  {
    var f := TodayFilter(kind, dayStart, dayEnd);
    assert forall x :: Matches(f, x) <==> x.kind == kind && dayStart <= x.date <= dayEnd;
    var selected := Select(rs, f);
    SelectNone(rs, f);
    SumNonNegative(selected, RecordAmount);
    SumAmounts(selected)
  }
}
