/**
 * The WHERE clauses of the record queries in RecordDao.kt, as data, and the
 * filter that evaluates them over the record table.
 */
module Criteria {
  import opened Entities
  import opened Tables

  /** One condition on a record row; `And` joins two of them. */
  datatype Criterion =
    | AccountIs(accountId: int)
    | DateBetween(start: int, end: int)  // `date >= start AND date <= end`
    | KindIs(kind: string)               // `type = kind`
    | CategoryIs(category: string)
    | And(left: Criterion, right: Criterion)

  predicate Matches(c: Criterion, r: Record) {
    match c
    case AccountIs(a) => r.accountId == a
    case DateBetween(s, e) => s <= r.date && r.date <= e
    case KindIs(k) => r.kind == k
    case CategoryIs(cat) => r.category == cat
    case And(left, right) => Matches(left, r) && Matches(right, r)
  }

  /** `SELECT * FROM record WHERE c`, in table order: each matching row as often as it occurs. */
  function Select(rs: seq<Record>, c: Criterion): (r: seq<Record>)
    ensures forall x :: x in r <==> x in rs && Matches(c, x)
    ensures |r| <= |rs|
  {
    if |rs| == 0 then []
    else
      assert rs == [rs[0]] + rs[1..];
      if Matches(c, rs[0]) then [rs[0]] + Select(rs[1..], c) else Select(rs[1..], c)
  }

  /** Each matching row is selected exactly as often as it occurs; no other row is. */
  lemma {:induction false} SelectCount(rs: seq<Record>, c: Criterion)
    ensures forall x :: multiset(Select(rs, c))[x] == if Matches(c, x) then multiset(rs)[x] else 0
  {
    if |rs| != 0 {
      SelectCount(rs[1..], c);
      assert rs == [rs[0]] + rs[1..];
    }
  }

  lemma {:induction false} SelectConcat(s: seq<Record>, t: seq<Record>, c: Criterion)
    ensures Select(s + t, c) == Select(s, c) + Select(t, c)
  {
    if |s| == 0 {
      assert s + t == t;
    } else {
      assert (s + t)[0] == s[0];
      assert (s + t)[1..] == s[1..] + t;
      SelectConcat(s[1..], t, c);
    }
  }

  /** Filtering a filtered table is filtering by both conditions. */
  lemma {:induction false} SelectSelect(rs: seq<Record>, c1: Criterion, c2: Criterion)
    ensures Select(Select(rs, c1), c2) == Select(rs, And(c1, c2))
  {
    if |rs| != 0 {
      SelectSelect(rs[1..], c1, c2);
    }
  }

  /** Two conditions that accept the same rows select the same rows. */
  lemma {:induction false} SelectEquivalent(rs: seq<Record>, c1: Criterion, c2: Criterion)
    requires forall x :: Matches(c1, x) <==> Matches(c2, x)
    ensures Select(rs, c1) == Select(rs, c2)
  {
    if |rs| != 0 {
      SelectEquivalent(rs[1..], c1, c2);
    }
  }

  /** Filtering commutes with reordering. */
  lemma SelectPermutation(s: seq<Record>, t: seq<Record>, c: Criterion)
    requires multiset(s) == multiset(t)
    ensures multiset(Select(s, c)) == multiset(Select(t, c))
  {
    SelectCount(s, c);
    SelectCount(t, c);
    assert forall x :: multiset(Select(s, c))[x] == multiset(Select(t, c))[x];
  }

  /** `SUM(amount)` over some record rows, 0.0 when there are none. */
  function SumAmounts(rs: seq<Record>): real {
    Sum(rs, RecordAmount)
  }
}
