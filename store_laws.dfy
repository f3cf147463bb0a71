/**
 * Laws of the DAO queries and writes that relate several statements: balance
 * arithmetic, the account-delete cascade and the income/expense totals.
 */
module StoreLaws {
  import opened Wrappers
  import opened Entities
  import opened Tables
  import opened Criteria
  import opened Store

  /** A balance statement on an absent id changes no row. */
  lemma ChangeBalanceAbsent(t: seq<Account>, id: int, c: BalanceChange)
    requires id !in Keys(t, AccountKey)
    ensures ChangeBalance(t, id, c) == t
  {
    var r := ChangeBalance(t, id, c);
    forall i | 0 <= i < |t| ensures r[i] == t[i] {
      assert t[i] in t;
    }
  }

  /** `addBalance(id, x)` followed by `subtractBalance(id, x)` restores the table. */
  lemma BalanceRoundTrip(t: seq<Account>, id: int, x: real)
    ensures ChangeBalance(ChangeBalance(t, id, Plus(x)), id, Minus(x)) == t
  {
    var r := ChangeBalance(ChangeBalance(t, id, Plus(x)), id, Minus(x));
    forall i | 0 <= i < |t| ensures r[i] == t[i] {
      assert r[i] == Account(t[i].id, t[i].name, t[i].balance);
    }
  }

  /**
   * With unique ids, a balance statement moves the sum of all balances by
   * exactly the change of the one row it names, and not at all for an absent id.
   */
  lemma {:induction false} ChangeBalanceTotal(t: seq<Account>, id: int, c: BalanceChange)
    requires UniqueKeys(t, AccountKey)
    ensures id !in Keys(t, AccountKey) ==>
              Sum(ChangeBalance(t, id, c), AccountBalance) == Sum(t, AccountBalance)
    ensures id in Keys(t, AccountKey) ==>
              var old_ := GetAccountById(t, id).value.balance;
              Sum(ChangeBalance(t, id, c), AccountBalance) == Sum(t, AccountBalance) - old_ + Apply(c, old_)
  {
    if |t| == 0 {
    } else if id !in Keys(t, AccountKey) {
      ChangeBalanceAbsent(t, id, c);
    } else {
      UniqueTail(t, AccountKey);
      var rest := t[1..];
      assert Keys(t, AccountKey) == {t[0].id} + Keys(rest, AccountKey) by {
        assert t == [t[0]] + rest;
        assert forall x :: x in t <==> x == t[0] || x in rest;
      }
      ChangeBalanceTotal(rest, id, c);
      var a := GetAccountById(t, id).value;
      if t[0].id == id {
        assert a == t[0];
        ChangeBalanceAbsent(rest, id, c);
      } else {
        assert a in rest;
        assert GetAccountById(rest, id) == Some(a);
      }
    }
  }

  /** `addBalance(id, x)` raises the total of all balances by exactly `x` when `id` exists. */
  lemma AddBalanceTotal(t: seq<Account>, id: int, x: real)
    requires UniqueKeys(t, AccountKey)
    ensures Sum(ChangeBalance(t, id, Plus(x)), AccountBalance)
            == Sum(t, AccountBalance) + if id in Keys(t, AccountKey) then x else 0.0
  {
    ChangeBalanceTotal(t, id, Plus(x));
  }

  /** `subtractBalance(id, x)` lowers the total of all balances by exactly `x` when `id` exists. */
  lemma SubtractBalanceTotal(t: seq<Account>, id: int, x: real)
    requires UniqueKeys(t, AccountKey)
    ensures Sum(ChangeBalance(t, id, Minus(x)), AccountBalance)
            == Sum(t, AccountBalance) - if id in Keys(t, AccountKey) then x else 0.0
  {
    ChangeBalanceTotal(t, id, Minus(x));
  }

  /** A filter that accepts no row of the table selects nothing. */
  lemma {:induction false} SelectNone(rs: seq<Record>, c: Criterion)
    ensures (forall x :: x in rs ==> !Matches(c, x)) ==> Select(rs, c) == []
  {
    if |rs| != 0 {
      assert rs[0] in rs;
      assert forall x :: x in rs[1..] ==> x in rs;
      SelectNone(rs[1..], c);
    }
  }

  /** Removing an account's records does not disturb a filter that only accepts other accounts' rows. */
  lemma {:induction false} SelectAfterRemove(rs: seq<Record>, a: int, c: Criterion)
    requires forall x :: Matches(c, x) ==> x.accountId != a
    ensures Select(Remove(rs, RecordOwner, a), c) == Select(rs, c)
  {
    if |rs| != 0 {
      var rest := Remove(rs[1..], RecordOwner, a);
      SelectAfterRemove(rs[1..], a, c);
      if rs[0].accountId == a {
        assert Remove(rs, RecordOwner, a) == rest;
        assert !Matches(c, rs[0]);
      } else {
        assert Remove(rs, RecordOwner, a) == [rs[0]] + rest;
        assert ([rs[0]] + rest)[1..] == rest;
      }
    }
  }

  /**
   * After the cascade for account `a` (`deleteAccount`, or `deleteAllRecordsByAccountId`),
   * `a` has no records and both of its totals are 0.0.
   */
  lemma CascadeClearsAccount(rs: seq<Record>, a: int)
    ensures GetAllRecordsByAccountId(Remove(rs, RecordOwner, a), a) == []
    ensures GetTotalIncome(Remove(rs, RecordOwner, a), a) == 0.0
    ensures GetTotalExpense(Remove(rs, RecordOwner, a), a) == 0.0
  {
    var left := Remove(rs, RecordOwner, a);
    SelectNone(left, AccountIs(a));
    assert |multiset(GetAllRecordsByAccountId(left, a))| == 0;
  }

  /** The cascade for `a` leaves every other account's records and totals exactly as they were. */
  lemma CascadeKeepsOthers(rs: seq<Record>, a: int, b: int)
    requires a != b
    ensures GetAllRecordsByAccountId(Remove(rs, RecordOwner, a), b) == GetAllRecordsByAccountId(rs, b)
    ensures GetTotalIncome(Remove(rs, RecordOwner, a), b) == GetTotalIncome(rs, b)
    ensures GetTotalExpense(Remove(rs, RecordOwner, a), b) == GetTotalExpense(rs, b)
  {
    SelectAfterRemove(rs, a, AccountIs(b));
    SelectAfterRemove(rs, a, And(AccountIs(b), KindIs(Income)));
    SelectAfterRemove(rs, a, And(AccountIs(b), KindIs(Expense)));
  }

  /** Appending one record moves a total by its amount when it belongs to that account and kind. */
  lemma TotalAfterAppend(rs: seq<Record>, x: Record, a: int, kind: string)
    ensures TotalOfKind(rs + [x], a, kind)
            == TotalOfKind(rs, a, kind) + if x.accountId == a && x.kind == kind then x.amount else 0.0
  {
    var c := And(AccountIs(a), KindIs(kind));
    SelectConcat(rs, [x], c);
    SumConcat(Select(rs, c), Select([x], c), RecordAmount);
    assert Select([x], c) == if Matches(c, x) then [x] else [];
  }

  /** Inserting an income record raises that account's income by its amount and leaves its expense alone. */
  lemma IncomeAfterInsert(rs: seq<Record>, x: Record)
    requires x.kind == Income
    ensures GetTotalIncome(rs + [x], x.accountId) == GetTotalIncome(rs, x.accountId) + x.amount
    ensures GetTotalExpense(rs + [x], x.accountId) == GetTotalExpense(rs, x.accountId)
  {
    TotalAfterAppend(rs, x, x.accountId, Income);
    TotalAfterAppend(rs, x, x.accountId, Expense);
  }

  /** Inserting an expense record raises that account's expense by its amount and leaves its income alone. */
  lemma ExpenseAfterInsert(rs: seq<Record>, x: Record)
    requires x.kind == Expense
    ensures GetTotalExpense(rs + [x], x.accountId) == GetTotalExpense(rs, x.accountId) + x.amount
    ensures GetTotalIncome(rs + [x], x.accountId) == GetTotalIncome(rs, x.accountId)
  {
    TotalAfterAppend(rs, x, x.accountId, Income);
    TotalAfterAppend(rs, x, x.accountId, Expense);
  }
}
