/**
 * The Room database behind AccountDao.kt and RecordDao.kt: the `account` and
 * `record` tables, the AUTOINCREMENT counters, the foreign key
 * `record.accountId -> account.id ON DELETE CASCADE`, one method per writing
 * DAO statement and one function per query.
 */
module Store {
  import opened Wrappers
  import opened Entities
  import opened Tables
  import opened Criteria

  /** The SQLite failures the DAO statements can raise. */
  datatype StoreError =
    | UniqueViolation(table: string)  // an explicit primary key that is already taken
    | ForeignKeyViolation             // a record whose accountId names no account
    | Full                            // AUTOINCREMENT has used the largest Long

  /** The message text of the exception SQLite raises. */
  function Describe(e: StoreError): string {
    match e
    case UniqueViolation(t) => "UNIQUE constraint failed: " + t + ".id"
    case ForeignKeyViolation => "FOREIGN KEY constraint failed"
    case Full => "database or disk is full"
  }

  /** The three balance statements of AccountDao.kt. */
  datatype BalanceChange =
    | SetTo(value: real)    // `SET balance = :balance`
    | Plus(amount: real)    // `SET balance = balance + :amount`
    | Minus(amount: real)   // `SET balance = balance - :amount`

  function Apply(c: BalanceChange, balance: real): real {
    match c
    case SetTo(v) => v
    case Plus(x) => balance + x
    case Minus(x) => balance - x
  }

  /**
   * `UPDATE account SET balance = .. WHERE id = :accountId`: only the balance of
   * the rows with that id changes; an absent id changes nothing.
   */
  function ChangeBalance(t: seq<Account>, id: int, c: BalanceChange): (r: seq<Account>)
    ensures |r| == |t|
    ensures forall i :: 0 <= i < |t| ==> r[i].id == t[i].id && r[i].name == t[i].name
    ensures forall i :: 0 <= i < |t| && t[i].id != id ==> r[i] == t[i]
    ensures forall i :: 0 <= i < |t| && t[i].id == id ==> r[i].balance == Apply(c, t[i].balance)
  {
    if |t| == 0 then []
    else
      var head := if t[0].id == id then t[0].(balance := Apply(c, t[0].balance)) else t[0];
      [head] + ChangeBalance(t[1..], id, c)
  }

  // ---------------------------------------------------------------- queries

  /** `getAccountById`: the account with that id, or absent. */
  function GetAccountById(t: seq<Account>, id: int): (r: Option<Account>)
    ensures r.Some? <==> id in Keys(t, AccountKey)
    ensures r.Some? ==> r.value in t && r.value.id == id
    ensures UniqueKeys(t, AccountKey) ==> forall a :: a in t && a.id == id ==> r == Some(a)
  {
    Find(t, AccountKey, id)
  }

  /** `getAllAccounts` / `getAllAccountsOnce`: `ORDER BY id DESC`. */
  function GetAllAccounts(t: seq<Account>): (r: seq<Account>)
    ensures multiset(r) == multiset(t)
    ensures UniqueKeys(t, AccountKey) ==> forall i, j :: 0 <= i < j < |r| ==> r[i].id > r[j].id
  {
    SortDescStrict(t, AccountKey);
    SortDesc(t, AccountKey)
  }

  /**
   * `getAccountByName`: `WHERE name = :name` returning one row. SQLite scans the
   * table in rowid order, so the row returned is the one with the smallest id.
   */
  function GetAccountByName(t: seq<Account>, name: string): (r: Option<Account>)
    ensures r.Some? <==> exists a :: a in t && a.name == name
    ensures r.Some? ==> r.value in t && r.value.name == name
    ensures r.Some? ==> forall a :: a in t && a.name == name ==> r.value.id <= a.id
  {
    if |t| == 0 then None
    else
      var rest := GetAccountByName(t[1..], name);
      assert forall a :: a in t ==> a == t[0] || a in t[1..];
      if t[0].name != name then rest
      else if rest.Some? && rest.value.id < t[0].id then rest
      else Some(t[0])
  }

  /** `getRecordById`: the record with that id, or absent. */
  function GetRecordById(rs: seq<Record>, id: int): (r: Option<Record>)
    ensures r.Some? <==> id in Keys(rs, RecordKey)
    ensures r.Some? ==> r.value in rs && r.value.id == id
    ensures UniqueKeys(rs, RecordKey) ==> forall x :: x in rs && x.id == id ==> r == Some(x)
  {
    Find(rs, RecordKey, id)
  }

  /** `SELECT * FROM record WHERE c ORDER BY date DESC`. */
  function RecordsWhere(rs: seq<Record>, c: Criterion): (r: seq<Record>)
    ensures multiset(r) == multiset(Select(rs, c))
    ensures forall x :: x in r <==> x in rs && Matches(c, x)
    ensures SortedDesc(r, RecordDate)
  {
    var selected := Select(rs, c);
    assert forall x :: x in SortDesc(selected, RecordDate) <==> x in multiset(selected);
    SortDesc(selected, RecordDate)
  }

  /** `getAllRecordsByAccountId` / `getAllRecordsByAccountIdOnce`. */
  function GetAllRecordsByAccountId(rs: seq<Record>, accountId: int): (r: seq<Record>)
    ensures forall x :: x in r <==> x in rs && x.accountId == accountId
    ensures multiset(r) == multiset(Select(rs, AccountIs(accountId)))
    ensures forall i, j :: 0 <= i < j < |r| ==> r[i].date >= r[j].date
  {
    RecordsWhere(rs, AccountIs(accountId))
  }

  /** `getRecordsByDateRange`: both bounds inclusive. */
  function GetRecordsByDateRange(rs: seq<Record>, accountId: int, start: int, end: int): (r: seq<Record>)
    ensures forall x :: x in r <==> x in rs && x.accountId == accountId && start <= x.date <= end
    ensures multiset(r) == multiset(Select(rs, And(AccountIs(accountId), DateBetween(start, end))))
    ensures forall i, j :: 0 <= i < j < |r| ==> r[i].date >= r[j].date
  {
    assert forall x :: Matches(And(AccountIs(accountId), DateBetween(start, end)), x) <==> x.accountId == accountId && start <= x.date <= end;
    RecordsWhere(rs, And(AccountIs(accountId), DateBetween(start, end)))
  }

  /** `getRecordsByType`. */
  function GetRecordsByType(rs: seq<Record>, accountId: int, kind: string): (r: seq<Record>)
    ensures forall x :: x in r <==> x in rs && x.accountId == accountId && x.kind == kind
    ensures multiset(r) == multiset(Select(rs, And(AccountIs(accountId), KindIs(kind))))
    ensures forall i, j :: 0 <= i < j < |r| ==> r[i].date >= r[j].date
  {
    assert forall x :: Matches(And(AccountIs(accountId), KindIs(kind)), x) <==> x.accountId == accountId && x.kind == kind;
    RecordsWhere(rs, And(AccountIs(accountId), KindIs(kind)))
  }

  /** `getRecordsByCategory`. */
  function GetRecordsByCategory(rs: seq<Record>, accountId: int, category: string): (r: seq<Record>)
    ensures forall x :: x in r <==> x in rs && x.accountId == accountId && x.category == category
    ensures multiset(r) == multiset(Select(rs, And(AccountIs(accountId), CategoryIs(category))))
    ensures forall i, j :: 0 <= i < j < |r| ==> r[i].date >= r[j].date
  {
    assert forall x :: Matches(And(AccountIs(accountId), CategoryIs(category)), x) <==> x.accountId == accountId && x.category == category;
    RecordsWhere(rs, And(AccountIs(accountId), CategoryIs(category)))
  }

  /**
   * `COALESCE(SUM(amount), 0.0) ... WHERE accountId = :accountId AND type = kind`:
   * the sum over what `getRecordsByType` returns, 0.0 when nothing matches.
   */
  function TotalOfKind(rs: seq<Record>, accountId: int, kind: string): (r: real)
    ensures (forall x :: x in rs ==> x.accountId != accountId || x.kind != kind) ==> r == 0.0
  {
    var selected := Select(rs, And(AccountIs(accountId), KindIs(kind)));
    assert selected != [] ==> selected[0] in rs && selected[0].accountId == accountId && selected[0].kind == kind by {
      assert forall x :: Matches(And(AccountIs(accountId), KindIs(kind)), x) <==> x.accountId == accountId && x.kind == kind;
    }
    SumAmounts(selected)
  }

  /** The total agrees with summing, in any order, the rows the type query returns. */
  lemma TotalMatchesTypeQuery(rs: seq<Record>, accountId: int, kind: string)
    ensures TotalOfKind(rs, accountId, kind) == SumAmounts(GetRecordsByType(rs, accountId, kind))
  {
    var selected := Select(rs, And(AccountIs(accountId), KindIs(kind)));
    SumPermutation(selected, GetRecordsByType(rs, accountId, kind), RecordAmount);
  }

  /** `getTotalIncome`. */
  function GetTotalIncome(rs: seq<Record>, accountId: int): (r: real)
    ensures (forall x :: x in rs ==> x.accountId != accountId || x.kind != Income) ==> r == 0.0
  {
    TotalOfKind(rs, accountId, Income)
  }

  /** `getTotalExpense`. */
  function GetTotalExpense(rs: seq<Record>, accountId: int): (r: real)
    ensures (forall x :: x in rs ==> x.accountId != accountId || x.kind != Expense) ==> r == 0.0
  {
    TotalOfKind(rs, accountId, Expense)
  }

  // ---------------------------------------------------------------- the database

  class Database {
    /** The `account` table, in insertion order. */
    var accounts: seq<Account>
    /** The `record` table, in insertion order. */
    var records: seq<Record>
    /** `sqlite_sequence` for each table: the largest id ever used there (0 at first). */
    var accountSeq: Long
    var recordSeq: Long
    /** Every id either table has ever held. */
    ghost var accountIdsEver: set<int>
    ghost var recordIdsEver: set<int>

    /** The foreign key: every record names a live account. */
    ghost predicate ReferencesValid()
      reads this
    {
      forall r :: r in records ==> r.accountId in Keys(accounts, AccountKey)
    }

    ghost predicate Valid()
      reads this
    {
      && UniqueKeys(accounts, AccountKey)
      && UniqueKeys(records, RecordKey)
      && 0 <= accountSeq && 0 <= recordSeq
      && Keys(accounts, AccountKey) <= accountIdsEver
      && Keys(records, RecordKey) <= recordIdsEver
      && (forall id :: id in accountIdsEver ==> id <= accountSeq)
      && (forall id :: id in recordIdsEver ==> id <= recordSeq)
      && ReferencesValid()
    }

    /**
     * The constraint `insertAccount(a)` violates in this state, if any: the
     * AUTOINCREMENT counter is exhausted, or the explicit id is taken.
     */
    function AccountInsertError(a: Account): Option<StoreError>
      reads this
    {
      if a.id == UnsetId then (if accountSeq == MaxLong then Some(Full) else None)
      else if a.id in Keys(accounts, AccountKey) then Some(UniqueViolation("account"))
      else None
    }

    /** The id a successful `insertAccount(a)` gives the row: the next counter value for id 0. */
    function NextAccountId(a: Account): Long
      reads this
    {
      if a.id == UnsetId && accountSeq < MaxLong then accountSeq + 1 else a.id
    }

    /**
     * The constraint `insertRecord(rec)` violates in this state, if any; the id
     * is checked before the foreign key.
     */
    function RecordInsertError(rec: Record): Option<StoreError>
      reads this
    {
      if rec.id == UnsetId && recordSeq == MaxLong then Some(Full)
      else if rec.id != UnsetId && rec.id in Keys(records, RecordKey) then Some(UniqueViolation("record"))
      else if rec.accountId !in Keys(accounts, AccountKey) then Some(ForeignKeyViolation)
      else None
    }

    /** The id a successful `insertRecord(rec)` gives the row. */
    function NextRecordId(rec: Record): Long
      reads this
    {
      if rec.id == UnsetId && recordSeq < MaxLong then recordSeq + 1 else rec.id
    }

    /**
     * The constraint `updateRecord(rec)` violates, if any: only a row that
     * exists is written, and then its account must exist.
     */
    function RecordUpdateError(rec: Record): Option<StoreError>
      reads this
    {
      if rec.id in Keys(records, RecordKey) && rec.accountId !in Keys(accounts, AccountKey)
      then Some(ForeignKeyViolation) else None
    }

    /** An empty database. */
    constructor ()
      ensures Valid()
      ensures accounts == [] && records == []
      ensures accountSeq == 0 && recordSeq == 0
      ensures accountIdsEver == {} && recordIdsEver == {}
    {
      accounts, records := [], [];
      accountSeq, recordSeq := 0, 0;
      accountIdsEver, recordIdsEver := {}, {};
    }

    /**
     * `insertAccount`: id 0 takes the next AUTOINCREMENT value, any other id is
     * kept; returns the row's id.
     */
    method InsertAccount(a: Account) returns (r: Result<Long, StoreError>)
      requires Valid()
      modifies this
      ensures records == old(records) && recordSeq == old(recordSeq) && recordIdsEver == old(recordIdsEver)
      ensures r.Err? <==> old(AccountInsertError(a)).Some?
      ensures r.Err? ==> old(AccountInsertError(a)) == Some(r.error)
      ensures r.Err? ==> accounts == old(accounts) && accountSeq == old(accountSeq) && accountIdsEver == old(accountIdsEver)
      ensures r.Ok? ==> r.value == old(NextAccountId(a))
      ensures r.Ok? ==> accounts == old(accounts) + [a.(id := r.value)]
      ensures r.Ok? ==> accountSeq == if old(accountSeq) < r.value then r.value else old(accountSeq)
      ensures r.Ok? ==> accountIdsEver == old(accountIdsEver) + {r.value}
      ensures r.Ok? && a.id != UnsetId ==> r.value == a.id
      ensures r.Ok? && a.id == UnsetId ==> r.value !in old(accountIdsEver)
      ensures r.Ok? ==> GetAccountById(accounts, r.value) == Some(Account(r.value, a.name, a.balance))
      ensures Valid()
    {
      var error := AccountInsertError(a);
      if error.Some? {
        return Err(error.value);
      }
      var id := NextAccountId(a);
      var row := a.(id := id);
      UniqueSnoc(accounts, row, AccountKey);
      accounts := accounts + [row];
      accountIdsEver := accountIdsEver + {id};
      if accountSeq < id {
        accountSeq := id;
      }
      r := Ok(id);
    }

    /** `updateAccount`: replaces the row with the same id; an absent id is a no-op. */
    method UpdateAccount(a: Account)
      requires Valid()
      modifies this
      ensures Valid()
      ensures accounts == Replace(old(accounts), AccountKey, a)
      ensures records == old(records) && accountSeq == old(accountSeq) && recordSeq == old(recordSeq)
      ensures accountIdsEver == old(accountIdsEver) && recordIdsEver == old(recordIdsEver)
    {
      ReplaceKeys(accounts, AccountKey, a);
      accounts := Replace(accounts, AccountKey, a);
    }

    /**
     * `deleteAccountById`: removes that account row and, by the cascading
     * foreign key, every record of that account; nothing else changes.
     */
    method DeleteAccountById(id: Long)
      requires Valid()
      modifies this
      ensures Valid()
      ensures accounts == Remove(old(accounts), AccountKey, id)
      ensures records == Remove(old(records), RecordOwner, id)
      ensures accountSeq == old(accountSeq) && recordSeq == old(recordSeq)
      ensures accountIdsEver == old(accountIdsEver) && recordIdsEver == old(recordIdsEver)
    {
      RemoveKeepsUnique(accounts, AccountKey, id, AccountKey);
      RemoveKeepsUnique(records, RecordOwner, id, RecordKey);
      accounts := Remove(accounts, AccountKey, id);
      records := Remove(records, RecordOwner, id);
    }

    /** `deleteAccount`: Room deletes by primary key only. */
    method DeleteAccount(a: Account)
      requires Valid()
      modifies this
      ensures Valid()
      ensures accounts == Remove(old(accounts), AccountKey, a.id)
      ensures records == Remove(old(records), RecordOwner, a.id)
      ensures accountSeq == old(accountSeq) && recordSeq == old(recordSeq)
      ensures accountIdsEver == old(accountIdsEver) && recordIdsEver == old(recordIdsEver)
    {
      DeleteAccountById(a.id);
    }

    /** `updateBalance` / `addBalance` / `subtractBalance`; records never change. */
    method ChangeAccountBalance(id: Long, c: BalanceChange)
      requires Valid()
      modifies this
      ensures Valid()
      ensures accounts == ChangeBalance(old(accounts), id, c)
      ensures records == old(records) && accountSeq == old(accountSeq) && recordSeq == old(recordSeq)
      ensures accountIdsEver == old(accountIdsEver) && recordIdsEver == old(recordIdsEver)
    {
      SameKeys(accounts, ChangeBalance(accounts, id, c), AccountKey);
      accounts := ChangeBalance(accounts, id, c);
    }

    method UpdateBalance(id: Long, balance: real)
      requires Valid()
      modifies this
      ensures Valid()
      ensures accounts == ChangeBalance(old(accounts), id, SetTo(balance))
      ensures records == old(records) && accountSeq == old(accountSeq) && recordSeq == old(recordSeq)
      ensures accountIdsEver == old(accountIdsEver) && recordIdsEver == old(recordIdsEver)
    {
      ChangeAccountBalance(id, SetTo(balance));
    }

    method AddBalance(id: Long, amount: real)
      requires Valid()
      modifies this
      ensures Valid()
      ensures accounts == ChangeBalance(old(accounts), id, Plus(amount))
      ensures records == old(records) && accountSeq == old(accountSeq) && recordSeq == old(recordSeq)
      ensures accountIdsEver == old(accountIdsEver) && recordIdsEver == old(recordIdsEver)
    {
      ChangeAccountBalance(id, Plus(amount));
    }

    method SubtractBalance(id: Long, amount: real)
      requires Valid()
      modifies this
      ensures Valid()
      ensures accounts == ChangeBalance(old(accounts), id, Minus(amount))
      ensures records == old(records) && accountSeq == old(accountSeq) && recordSeq == old(recordSeq)
      ensures accountIdsEver == old(accountIdsEver) && recordIdsEver == old(recordIdsEver)
    {
      ChangeAccountBalance(id, Minus(amount));
    }

    /**
     * `insertRecord`: the id is assigned as for accounts; a record whose
     * accountId names no account is refused and nothing changes.
     */
    method InsertRecord(rec: Record) returns (r: Result<Long, StoreError>)
      requires Valid()
      modifies this
      ensures accounts == old(accounts) && accountSeq == old(accountSeq) && accountIdsEver == old(accountIdsEver)
      ensures r.Err? <==> old(RecordInsertError(rec)).Some?
      ensures r.Err? ==> old(RecordInsertError(rec)) == Some(r.error)
      ensures r.Err? ==> records == old(records) && recordSeq == old(recordSeq) && recordIdsEver == old(recordIdsEver)
      ensures r.Ok? ==> r.value == old(NextRecordId(rec))
      ensures r.Ok? ==> records == old(records) + [rec.(id := r.value)]
      ensures r.Ok? ==> recordSeq == if old(recordSeq) < r.value then r.value else old(recordSeq)
      ensures r.Ok? ==> recordIdsEver == old(recordIdsEver) + {r.value}
      ensures r.Ok? && rec.id != UnsetId ==> r.value == rec.id
      ensures r.Ok? && rec.id == UnsetId ==> r.value !in old(recordIdsEver)
      ensures r.Ok? ==> GetRecordById(records, r.value) == Some(rec.(id := r.value))
      ensures Valid()
    {
      var error := RecordInsertError(rec);
      if error.Some? {
        return Err(error.value);
      }
      var id := NextRecordId(rec);
      var row := rec.(id := id);
      UniqueSnoc(records, row, RecordKey);
      assert forall x :: x in records + [row] ==> x in records || x == row;
      records := records + [row];
      recordIdsEver := recordIdsEver + {id};
      if recordSeq < id {
        recordSeq := id;
      }
      r := Ok(id);
    }

    /**
     * `updateRecord`: replaces the row with the same id; an absent id is a no-op.
     * Moving a record to an account that does not exist is refused.
     */
    method UpdateRecord(rec: Record) returns (r: Outcome<StoreError>)
      requires Valid()
      modifies this
      ensures Valid()
      ensures r.Fail? <==> old(RecordUpdateError(rec)).Some?
      ensures r.Fail? ==> old(RecordUpdateError(rec)) == Some(r.error) && records == old(records)
      ensures r.Pass? ==> records == Replace(old(records), RecordKey, rec)
      ensures accounts == old(accounts) && accountSeq == old(accountSeq) && recordSeq == old(recordSeq)
      ensures accountIdsEver == old(accountIdsEver) && recordIdsEver == old(recordIdsEver)
    {
      if rec.id in Keys(records, RecordKey) && rec.accountId !in Keys(accounts, AccountKey) {
        return Fail(ForeignKeyViolation);
      }
      ReplaceKeys(records, RecordKey, rec);
      records := Replace(records, RecordKey, rec);
      r := Pass;
    }

    /** `deleteRecordById`: removes at most the one record with that id. */
    method DeleteRecordById(id: Long)
      requires Valid()
      modifies this
      ensures Valid()
      ensures records == Remove(old(records), RecordKey, id)
      ensures accounts == old(accounts) && accountSeq == old(accountSeq) && recordSeq == old(recordSeq)
      ensures accountIdsEver == old(accountIdsEver) && recordIdsEver == old(recordIdsEver)
    {
      RemoveKeepsUnique(records, RecordKey, id, RecordKey);
      records := Remove(records, RecordKey, id);
    }

    /** `deleteRecord`: Room deletes by primary key only. */
    method DeleteRecord(rec: Record)
      requires Valid()
      modifies this
      ensures Valid()
      ensures records == Remove(old(records), RecordKey, rec.id)
      ensures accounts == old(accounts) && accountSeq == old(accountSeq) && recordSeq == old(recordSeq)
      ensures accountIdsEver == old(accountIdsEver) && recordIdsEver == old(recordIdsEver)
    {
      DeleteRecordById(rec.id);
    }

    /** `deleteAllRecordsByAccountId`: the account's records go, its row stays. */
    method DeleteAllRecordsByAccountId(accountId: Long)
      requires Valid()
      modifies this
      ensures Valid()
      ensures records == Remove(old(records), RecordOwner, accountId)
      ensures accounts == old(accounts) && accountSeq == old(accountSeq) && recordSeq == old(recordSeq)
      ensures accountIdsEver == old(accountIdsEver) && recordIdsEver == old(recordIdsEver)
    {
      RemoveKeepsUnique(records, RecordOwner, accountId, RecordKey);
      records := Remove(records, RecordOwner, accountId);
    }
  }
}
