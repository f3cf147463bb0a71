/**
 * The scenarios of DatabaseTest.kt, run against a new, empty store: each
 * states what the test asserts, and more precisely. The test itself opens the
 * app's persistent database, which is why it only asserts `size >= 2` for two
 * inserted accounts; on a new store the listing is exact.
 */
module DatabaseScenarios {
  import opened Wrappers
  import opened Entities
  import opened Tables
  import opened Store

  /** `testInsertAndQueryAccount`: the first account gets id 1 and reads back unchanged. */
  method InsertAndQueryAccount(name: string, balance: real) returns (id: Long, retrieved: Option<Account>)
    ensures id == 1
    ensures retrieved == Some(Account(id, name, balance))
  {
    var db := new Database();
    var r := db.InsertAccount(Account(UnsetId, name, balance));
    id := r.value;
    retrieved := GetAccountById(db.accounts, id);
  }

  /**
   * `testInsertAndQueryRecord`: a record of a freshly inserted account is
   * accepted, gets id 1, and reads back with every field as given.
   */
  method InsertAndQueryRecord(title: string, amount: real, kind: string, category: string, date: Long, note: string)
    returns (retrieved: Option<Record>)
    ensures retrieved == Some(Record(1, title, amount, kind, category, date, note, 1))
  {
    var db := new Database();
    var a := db.InsertAccount(NewAccount("Test Account 2").(balance := 2000.0));
    var accountId := a.value;
    var r := db.InsertRecord(Record(UnsetId, title, amount, kind, category, date, note, accountId));
    retrieved := GetRecordById(db.records, r.value);
  }

  /** Two accounts are listed with the larger id, the later one, first. */
  lemma ListTwoAccounts(older: Account, newer: Account)
    requires older.id < newer.id
    ensures GetAllAccounts([older, newer]) == [newer, older]
  {
    assert [older, newer][1..] == [newer];
    assert SortDesc([newer], AccountKey) == [newer];
    assert InsertDesc(older, [newer], AccountKey) == [newer, older];
  }

  /** `testMultipleAccounts`: two inserts list both accounts, the newer first. */
  method MultipleAccounts() returns (all: seq<Account>)
    ensures all == [Account(2, "Account 2", 2000.0), Account(1, "Account 1", 1000.0)]
  {
    var db := new Database();
    var a1 := db.InsertAccount(Account(UnsetId, "Account 1", 1000.0));
    var a2 := db.InsertAccount(Account(UnsetId, "Account 2", 2000.0));
    var first, second := Account(1, "Account 1", 1000.0), Account(2, "Account 2", 2000.0);
    assert db.accounts == [first, second];
    ListTwoAccounts(first, second);
    all := GetAllAccounts(db.accounts);
  }
}
