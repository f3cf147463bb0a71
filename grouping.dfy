/**
 * RecordAdapter.kt: the list entries of the record screen (`RecordGroup`), the
 * scan `groupByDate` that puts a date header before each new day, and the
 * DiffUtil comparisons `RecordDiffCallback`.
 *
 * The day formatter (`SimpleDateFormat("yyyy-MM-dd EEEE")` applied to a
 * millisecond timestamp) is a parameter `day`; nothing is assumed about it
 * except where a lemma says so.
 */
module Grouping {
  import opened Wrappers
  import opened Entities

  /** One row of the record list: a date header or a record. */
  datatype RecordGroup = DateHeader(date: string) | RecordItem(record: Record)

  /** Record `i` opens a new day: it is the first, or its day differs from the previous record's. */
  predicate StartsDay(rs: seq<Record>, day: int -> string, i: int)
    requires 0 <= i < |rs|
  {
    i == 0 || day(rs[i].date) != day(rs[i - 1].date)
  }

  /** What the scan appends for record `i`. */
  function Step(rs: seq<Record>, day: int -> string, i: int): seq<RecordGroup>
    requires 0 <= i < |rs|
  {
    (if StartsDay(rs, day, i) then [DateHeader(day(rs[i].date))] else []) + [RecordItem(rs[i])]
  }

  /** What the scan has produced after the first `n` records. */
  function GroupedPrefix(rs: seq<Record>, day: int -> string, n: nat): seq<RecordGroup>
    requires n <= |rs|
  {
    if n == 0 then [] else GroupedPrefix(rs, day, n - 1) + Step(rs, day, n - 1)
  }

  /** The whole result of the scan. */
  function Grouped(rs: seq<Record>, day: int -> string): seq<RecordGroup> {
    GroupedPrefix(rs, day, |rs|)
  }

  /** `groupByDate`: one pass, remembering the last day a header was emitted for. */
  method GroupByDate(rs: seq<Record>, day: int -> string) returns (grouped: seq<RecordGroup>)
    ensures grouped == Grouped(rs, day)
  {
    grouped := [];
    var lastDate: Option<string> := None;
    for i := 0 to |rs|
      invariant grouped == GroupedPrefix(rs, day, i)
      invariant lastDate == if i == 0 then None else Some(day(rs[i - 1].date))
    {
      var currentDate := day(rs[i].date);
      if lastDate != Some(currentDate) {
        grouped := grouped + [DateHeader(currentDate)];
        lastDate := Some(currentDate);
      }
      grouped := grouped + [RecordItem(rs[i])];
    }
  }

  /** The records of a list of entries, headers dropped. */
  function Items(g: seq<RecordGroup>): seq<Record> {
    if |g| == 0 then []
    else (if g[0].RecordItem? then [g[0].record] else []) + Items(g[1..])
  }

  /** The header texts of a list of entries, records dropped. */
  function Headers(g: seq<RecordGroup>): seq<string> {
    if |g| == 0 then []
    else (if g[0].DateHeader? then [g[0].date] else []) + Headers(g[1..])
  }

  lemma {:induction false} ItemsConcat(g: seq<RecordGroup>, h: seq<RecordGroup>)
    ensures Items(g + h) == Items(g) + Items(h)
  {
    if |g| == 0 {
      assert g + h == h;
    } else {
      var gh := g + h;
      assert gh[0] == g[0];
      assert gh[1..] == g[1..] + h;
      ItemsConcat(g[1..], h);
      var first := if g[0].RecordItem? then [g[0].record] else [];
      assert Items(gh) == first + Items(gh[1..]);
      assert Items(g) == first + Items(g[1..]);
    }
  }

  lemma {:induction false} HeadersConcat(g: seq<RecordGroup>, h: seq<RecordGroup>)
    ensures Headers(g + h) == Headers(g) + Headers(h)
  {
    if |g| == 0 {
      assert g + h == h;
    } else {
      var gh := g + h;
      assert gh[0] == g[0];
      assert gh[1..] == g[1..] + h;
      HeadersConcat(g[1..], h);
      var first := if g[0].DateHeader? then [g[0].date] else [];
      assert Headers(gh) == first + Headers(gh[1..]);
      assert Headers(g) == first + Headers(g[1..]);
    }
  }

  /** Every entry is a header or a record. */
  lemma {:induction false} EntriesSplit(g: seq<RecordGroup>)
    ensures |g| == |Items(g)| + |Headers(g)|
  {
    if |g| != 0 {
      EntriesSplit(g[1..]);
    }
  }

  /** One step of the scan contributes one record and at most one header. */
  lemma StepEntries(rs: seq<Record>, day: int -> string, i: nat)
    requires i < |rs|
    ensures Items(Step(rs, day, i)) == [rs[i]]
    ensures Headers(Step(rs, day, i)) == if StartsDay(rs, day, i) then [day(rs[i].date)] else []
  {
    var h: seq<RecordGroup> := if StartsDay(rs, day, i) then [DateHeader(day(rs[i].date))] else [];
    var item := [RecordItem(rs[i])];
    assert Step(rs, day, i) == h + item;
    ItemsConcat(h, item);
    HeadersConcat(h, item);
    assert Items(item) == [rs[i]];
    assert Headers(item) == [];
  }

  /** The records grow by the next input record. */
  lemma ItemsStep(rs: seq<Record>, day: int -> string, n: nat)
    requires 0 < n <= |rs|
    ensures Items(GroupedPrefix(rs, day, n)) == Items(GroupedPrefix(rs, day, n - 1)) + [rs[n - 1]]
  {
    var g, s := GroupedPrefix(rs, day, n - 1), Step(rs, day, n - 1);
    assert GroupedPrefix(rs, day, n) == g + s;
    ItemsConcat(g, s);
    StepEntries(rs, day, n - 1);
  }

  /** The headers grow by what the next step emits. */
  lemma HeadersStep(rs: seq<Record>, day: int -> string, n: nat)
    requires 0 < n <= |rs|
    ensures Headers(GroupedPrefix(rs, day, n))
         == Headers(GroupedPrefix(rs, day, n - 1))
            + (if StartsDay(rs, day, n - 1) then [day(rs[n - 1].date)] else [])
  {
    var g, s := GroupedPrefix(rs, day, n - 1), Step(rs, day, n - 1);
    assert GroupedPrefix(rs, day, n) == g + s;
    HeadersConcat(g, s);
    StepEntries(rs, day, n - 1);
  }

  lemma {:induction false} GroupedPrefixItems(rs: seq<Record>, day: int -> string, n: nat)
    requires n <= |rs|
    ensures Items(GroupedPrefix(rs, day, n)) == rs[..n]
  {
    if n > 0 {
      GroupedPrefixItems(rs, day, n - 1);
      ItemsStep(rs, day, n);
      assert rs[..n] == rs[..n - 1] + [rs[n - 1]];
    }
  }

  /** Dropping the headers gives back the input, in order. */
  lemma GroupedItems(rs: seq<Record>, day: int -> string)
    ensures Items(Grouped(rs, day)) == rs
  {
    GroupedPrefixItems(rs, day, |rs|);
    assert rs[..|rs|] == rs;
  }

  /** The output is the input plus one entry per header. */
  lemma GroupedLength(rs: seq<Record>, day: int -> string)
    ensures |Grouped(rs, day)| == |rs| + |Headers(Grouped(rs, day))|
  {
    GroupedItems(rs, day);
    EntriesSplit(Grouped(rs, day));
  }

  /** An earlier stage of the scan is a prefix of a later one. */
  lemma {:induction false} GroupedPrefixGrows(rs: seq<Record>, day: int -> string, n: nat, m: nat)
    requires n <= m <= |rs|
    ensures GroupedPrefix(rs, day, n) <= GroupedPrefix(rs, day, m)
  {
    if n < m {
      GroupedPrefixGrows(rs, day, n, m - 1);
    }
  }

  /** After at least one record the output ends with that record's item. */
  lemma GroupedPrefixLast(rs: seq<Record>, day: int -> string, n: nat)
    requires 0 < n <= |rs|
    ensures |GroupedPrefix(rs, day, n)| > 0
    ensures GroupedPrefix(rs, day, n)[|GroupedPrefix(rs, day, n)| - 1] == RecordItem(rs[n - 1])
  {
  }

  /** Every header is immediately followed by a record. */
  ghost predicate HeadersFollowedByItems(g: seq<RecordGroup>) {
    forall j :: 0 <= j < |g| && g[j].DateHeader? ==> j + 1 < |g| && g[j + 1].RecordItem?
  }

  lemma {:induction false} GroupedPrefixShape(rs: seq<Record>, day: int -> string, n: nat)
    requires n <= |rs|
    ensures HeadersFollowedByItems(GroupedPrefix(rs, day, n))
  {
    if n > 0 {
      GroupedPrefixShape(rs, day, n - 1);
      var g := GroupedPrefix(rs, day, n - 1);
      var s := Step(rs, day, n - 1);
      var h := g + s;
      forall j | 0 <= j < |h| && h[j].DateHeader? ensures j + 1 < |h| && h[j + 1].RecordItem? {
        if j < |g| {
          assert g[j].DateHeader?;
        } else {
          assert s[j - |g|].DateHeader?;
        }
      }
    }
  }

  /** Never two headers in a row, and never a header at the end. */
  lemma GroupedShape(rs: seq<Record>, day: int -> string)
    ensures forall j :: 0 <= j < |Grouped(rs, day)| - 1 ==>
              !(Grouped(rs, day)[j].DateHeader? && Grouped(rs, day)[j + 1].DateHeader?)
    ensures |Grouped(rs, day)| > 0 ==> Grouped(rs, day)[|Grouped(rs, day)| - 1].RecordItem?
  {
    GroupedPrefixShape(rs, day, |rs|);
  }

  /** Where record `i` lands in the output. */
  function ItemIndex(rs: seq<Record>, day: int -> string, i: nat): nat
    requires i < |rs|
  {
    |GroupedPrefix(rs, day, i)| + if StartsDay(rs, day, i) then 1 else 0
  }

  /**
   * Record `i` sits at `ItemIndex(i)`, and the entry just before it is a header
   * exactly when record `i` opens a new day; that header shows record `i`'s day.
   */
  lemma GroupedPositions(rs: seq<Record>, day: int -> string, i: nat)
    requires i < |rs|
    ensures ItemIndex(rs, day, i) < |Grouped(rs, day)|
    ensures Grouped(rs, day)[ItemIndex(rs, day, i)] == RecordItem(rs[i])
    ensures (ItemIndex(rs, day, i) > 0 && Grouped(rs, day)[ItemIndex(rs, day, i) - 1].DateHeader?)
            <==> StartsDay(rs, day, i)
    ensures StartsDay(rs, day, i) ==>
              Grouped(rs, day)[ItemIndex(rs, day, i) - 1] == DateHeader(day(rs[i].date))
  {
    var g := GroupedPrefix(rs, day, i);
    var h := GroupedPrefix(rs, day, i + 1);
    assert h == g + Step(rs, day, i);
    GroupedPrefixGrows(rs, day, i + 1, |rs|);
    var p := ItemIndex(rs, day, i);
    assert h[p] == RecordItem(rs[i]);
    if !StartsDay(rs, day, i) {
      GroupedPrefixLast(rs, day, i);
      assert h[p - 1] == g[|g| - 1];
    }
  }

  /** Records of one day are never separated by a record of another day. */
  ghost predicate DaysContiguous(rs: seq<Record>, day: int -> string) {
    forall i, j, k :: 0 <= i < j < k < |rs| && day(rs[i].date) == day(rs[k].date) ==>
      day(rs[j].date) == day(rs[i].date)
  }

  /** The days of the first `n` records. */
  ghost function DaysOf(rs: seq<Record>, day: int -> string, n: nat): set<string>
    requires n <= |rs|
  {
    set i | 0 <= i < n :: day(rs[i].date)
  }

  ghost predicate Distinct(s: seq<string>) {
    forall a, b :: 0 <= a < b < |s| ==> s[a] != s[b]
  }

  /** Under adjacency, a record that opens a day has a day no earlier record had. */
  lemma NewDayIsNew(rs: seq<Record>, day: int -> string, i: nat)
    requires i < |rs| && DaysContiguous(rs, day) && StartsDay(rs, day, i)
    ensures day(rs[i].date) !in DaysOf(rs, day, i)
  {
    forall j | 0 <= j < i ensures day(rs[j].date) != day(rs[i].date) {
      if j + 1 < i {
        var previous := day(rs[i - 1].date);
        assert previous != day(rs[i].date);
      }
    }
  }

  lemma DistinctAppend(hs: seq<string>, d: string)
    requires Distinct(hs) && d !in hs
    ensures Distinct(hs + [d])
  {
    forall a, b | 0 <= a < b < |hs + [d]| ensures (hs + [d])[a] != (hs + [d])[b] {
      if b == |hs| {
        assert (hs + [d])[a] == hs[a];
        assert hs[a] in hs;
      }
    }
  }

  /** The days seen grow by the day of the next record. */
  lemma DaysOfStep(rs: seq<Record>, day: int -> string, n: nat)
    requires 0 < n <= |rs|
    ensures DaysOf(rs, day, n) == DaysOf(rs, day, n - 1) + {day(rs[n - 1].date)}
  {
  }

  lemma {:induction false} GroupedPrefixHeaders(rs: seq<Record>, day: int -> string, n: nat)
    requires n <= |rs| && DaysContiguous(rs, day)
    ensures Distinct(Headers(GroupedPrefix(rs, day, n)))
    ensures forall d :: d in Headers(GroupedPrefix(rs, day, n)) <==> d in DaysOf(rs, day, n)
  {
    if n > 0 {
      GroupedPrefixHeaders(rs, day, n - 1);
      var hs := Headers(GroupedPrefix(rs, day, n - 1));
      var d := day(rs[n - 1].date);
      HeadersStep(rs, day, n);
      DaysOfStep(rs, day, n);
      if StartsDay(rs, day, n - 1) {
        NewDayIsNew(rs, day, n - 1);
        DistinctAppend(hs, d);
      } else {
        assert hs + [] == hs;
        assert d in DaysOf(rs, day, n - 1) by {
          assert d == day(rs[n - 2].date);
        }
      }
    }
  }

  /**
   * When the records of each day are adjacent, the output has exactly one header
   * per distinct day: header texts never repeat and they are exactly the days.
   */
  lemma OneHeaderPerDay(rs: seq<Record>, day: int -> string)
    requires DaysContiguous(rs, day)
    ensures Distinct(Headers(Grouped(rs, day)))
    ensures forall d :: d in Headers(Grouped(rs, day)) <==> exists r :: r in rs && day(r.date) == d
  {
    GroupedPrefixHeaders(rs, day, |rs|);
    forall d ensures d in DaysOf(rs, day, |rs|) <==> exists r :: r in rs && day(r.date) == d {
      if exists r :: r in rs && day(r.date) == d {
        var r :| r in rs && day(r.date) == d;
        var i :| 0 <= i < |rs| && rs[i] == r;
        assert day(rs[i].date) in DaysOf(rs, day, |rs|);
      }
    }
  }

  /**
   * A day formatter maps each calendar day to one interval of time: a
   * timestamp between two of the same day has that day.
   */
  ghost predicate DaysAreIntervals(day: int -> string) {
    forall t1, t2, t3 :: t1 <= t2 <= t3 && day(t1) == day(t3) ==> day(t2) == day(t1)
  }

  /** Input ordered by date descending, as every record query returns it, has adjacent days. */
  lemma SortedInputHasContiguousDays(rs: seq<Record>, day: int -> string)
    requires DaysAreIntervals(day)
    requires forall i, j :: 0 <= i < j < |rs| ==> rs[i].date >= rs[j].date
    ensures DaysContiguous(rs, day)
  {
    forall i, j, k | 0 <= i < j < k < |rs| && day(rs[i].date) == day(rs[k].date)
      ensures day(rs[j].date) == day(rs[i].date)
    {
      assert rs[k].date <= rs[j].date <= rs[i].date;
    }
  }

  // ------------------------------------------------------------ RecordDiffCallback

  /** `areItemsTheSame`: headers by date, items by record id, never a header and an item. */
  predicate AreItemsTheSame(oldItem: RecordGroup, newItem: RecordGroup) {
    match (oldItem, newItem)
    case (DateHeader(d1), DateHeader(d2)) => d1 == d2
    case (RecordItem(r1), RecordItem(r2)) => r1.id == r2.id
    case _ => false
  }

  /** `areContentsTheSame`: data-class equality. */
  predicate AreContentsTheSame(oldItem: RecordGroup, newItem: RecordGroup) {
    oldItem == newItem
  }

  /**
   * The identity comparison is an equivalence that separates headers from
   * items, and equal contents imply the same identity.
   */
  lemma RecordDiffLaws(a: RecordGroup, b: RecordGroup, c: RecordGroup)
    ensures AreContentsTheSame(a, b) ==> AreItemsTheSame(a, b)
    ensures AreItemsTheSame(a, a)
    ensures AreItemsTheSame(a, b) == AreItemsTheSame(b, a)
    ensures AreItemsTheSame(a, b) && AreItemsTheSame(b, c) ==> AreItemsTheSame(a, c)
    ensures a.DateHeader? != b.DateHeader? ==> !AreItemsTheSame(a, b)
    ensures a.DateHeader? && b.DateHeader? ==> (AreItemsTheSame(a, b) <==> a.date == b.date)
    ensures a.RecordItem? && b.RecordItem? ==> (AreItemsTheSame(a, b) <==> a.record.id == b.record.id)
  {
  }
}
