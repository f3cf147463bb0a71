/**
 * The two Room entities of the ledger: `account(id, name, balance)` and
 * `record(id, title, amount, type, category, date, note, accountId)`.
 */
module Entities {

  const MinLong: int := -0x8000_0000_0000_0000
  const MaxLong: int := 0x7FFF_FFFF_FFFF_FFFF

  /** Kotlin's `Long`: ids, foreign keys and millisecond timestamps. */
  type Long = x: int | -0x8000_0000_0000_0000 <= x <= 0x7FFF_FFFF_FFFF_FFFF

  /** The primary-key value that asks Room to generate a fresh id. */
  const UnsetId: Long := 0

  /** The two record types the application writes; nothing enforces them. */
  const Income: string := "income"
  const Expense: string := "expense"

  /** A ledger. Amounts are exact reals here (Kotlin uses `Double`). */
  datatype Account = Account(id: Long, name: string, balance: real)

  /**
   * One income or expense transaction. The Kotlin field `type` is called
   * `kind` because `type` is a keyword in Dafny.
   */
  datatype Record = Record(
    id: Long,
    title: string,
    amount: real,
    kind: string,
    category: string,
    date: Long,
    note: string,
    accountId: Long)

  /** `Account(name = n)`: the constructor with its declared defaults. */
  function NewAccount(name: string): (a: Account)
    ensures a.id == UnsetId && a.name == name && a.balance == 0.0
  {
    Account(UnsetId, name, 0.0)
  }

  /** `Record(title = .., amount = .., ..., accountId = ..)` without `id` and `note`. */
  function NewRecord(title: string, amount: real, kind: string, category: string,
                     date: Long, accountId: Long): (r: Record)
    ensures r.id == UnsetId && r.note == ""
    ensures r.title == title && r.amount == amount && r.kind == kind
    ensures r.category == category && r.date == date && r.accountId == accountId
  {
    Record(UnsetId, title, amount, kind, category, date, "", accountId)
  }

  // Column accessors, passed to the generic table functions as keys.

  function AccountKey(a: Account): int { a.id }
  function AccountBalance(a: Account): real { a.balance }
  function RecordKey(r: Record): int { r.id }
  function RecordOwner(r: Record): int { r.accountId }
  function RecordDate(r: Record): int { r.date }
  function RecordAmount(r: Record): real { r.amount }
}
