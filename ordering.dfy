/**
 * The orders of the output sheets (main.py:166-174): the monthly summary is
 * sorted by a categorical manager column whose categories are the sorted
 * names, then 'без А/М', then 'Весь отдел'; the month columns of the pivot
 * are put back into calendar order.
 */
module Ordering {
  import Text
  import Tables
  import Calendar
  import LongForm
  import Coefficients
  import MonthLoop

  // ---------------------------------------------------------------- sorting by category

  function HasKey<T>(key: T -> string, k: string): T -> bool {
    (x: T) => key(x) == k
  }

  function KeyIn<T>(key: T -> string, order: seq<string>): T -> bool {
    (x: T) => key(x) in order
  }

  /** The rows of each category in turn, each category's rows in their original order. */
  function Bucket<T(!new)>(s: seq<T>, key: T -> string, order: seq<string>): (r: seq<T>)
    ensures forall x :: x in r <==> x in s && key(x) in order
  {
    if order == [] then [] else Tables.Filter(s, HasKey(key, order[0])) + Bucket(s, key, order[1..])
  }

  predicate Distinct(order: seq<string>) {
    forall i, j :: 0 <= i < j < |order| ==> order[i] != order[j]
  }

  /** The category code of `k`: its position in `order`; a value outside the categories sorts after all of them. */
  function Rank(order: seq<string>, k: string): (n: nat)
    ensures k in order ==> n < |order| && order[n] == k
    ensures k !in order ==> n == |order|
  {
    if order == [] then 0 else if order[0] == k then 0 else 1 + Rank(order[1..], k)
  }

  function RankOf<T>(key: T -> string, order: seq<string>): T -> nat {
    (x: T) => Rank(order, key(x))
  }

  predicate SortedBy<T>(r: seq<T>, f: T -> nat) {
    forall i, j :: 0 <= i < j < |r| ==> f(r[i]) <= f(r[j])
  }

  lemma SortedConcat<T>(a: seq<T>, b: seq<T>, f: T -> nat)
    requires SortedBy(a, f) && SortedBy(b, f)
    requires forall i, j :: 0 <= i < |a| && 0 <= j < |b| ==> f(a[i]) <= f(b[j])
    ensures SortedBy(a + b, f)
  {
    forall i, j | 0 <= i < j < |a + b| ensures f((a + b)[i]) <= f((a + b)[j]) {
      if j < |a| {
        assert (a + b)[i] == a[i] && (a + b)[j] == a[j];
      } else if i >= |a| {
        assert (a + b)[i] == b[i - |a|] && (a + b)[j] == b[j - |a|];
      } else {
        assert (a + b)[i] == a[i] && (a + b)[j] == b[j - |a|];
      }
    }
  }

  lemma DistinctTail(order: seq<string>)
    requires order != [] && Distinct(order)
    ensures Distinct(order[1..]) && order[0] !in order[1..]
  {
    forall i, j | 0 <= i < j < |order| - 1 ensures order[1..][i] != order[1..][j] {
      assert order[1..][i] == order[i + 1] && order[1..][j] == order[j + 1];
    }
    forall j | 0 <= j < |order| - 1 ensures order[1..][j] != order[0] {
      assert order[1..][j] == order[j + 1];
    }
  }

  lemma {:induction false} FilterSplit<T(!new)>(s: seq<T>, f: T -> bool, g: T -> bool, h: T -> bool)
    requires forall x :: x in s ==> (h(x) <==> f(x) || g(x)) && !(f(x) && g(x))
    ensures multiset(Tables.Filter(s, h)) == multiset(Tables.Filter(s, f)) + multiset(Tables.Filter(s, g))
  {
    if s != [] {
      assert s[0] in s;
      forall x | x in s[1..] ensures (h(x) <==> f(x) || g(x)) && !(f(x) && g(x)) {
        assert x in s;
      }
      FilterSplit(s[1..], f, g, h);
    }
  }

  /** Sorting keeps the rows whose category is listed, each as often as before. */
  lemma {:induction false} BucketPermutation<T(!new)>(s: seq<T>, key: T -> string, order: seq<string>)
    requires Distinct(order)
    ensures multiset(Bucket(s, key, order)) == multiset(Tables.Filter(s, KeyIn(key, order)))
  {
    if order == [] {
      Tables.FilterDropsAll(s, KeyIn(key, order));
    } else {
      DistinctTail(order);
      BucketPermutation(s, key, order[1..]);
      FilterSplit(s, HasKey(key, order[0]), KeyIn(key, order[1..]), KeyIn(key, order));
    }
  }

  /** Along the sorted rows the category codes never decrease. */
  lemma {:induction false} BucketSorted<T(!new)>(s: seq<T>, key: T -> string, order: seq<string>)
    requires Distinct(order)
    ensures SortedBy(Bucket(s, key, order), RankOf(key, order))
  {
    if order != [] {
      DistinctTail(order);
      BucketSorted(s, key, order[1..]);
      var head := Tables.Filter(s, HasKey(key, order[0]));
      var rest := Bucket(s, key, order[1..]);
      var f := RankOf(key, order);
      forall i | 0 <= i < |head| ensures f(head[i]) == 0 {
        assert head[i] in head;
      }
      forall j | 0 <= j < |rest| ensures f(rest[j]) == 1 + RankOf(key, order[1..])(rest[j]) {
        assert rest[j] in rest;
        RankOfTail(order, key(rest[j]));
      }
      SortedConcat(head, rest, f);
    }
  }

  lemma RankOfTail(order: seq<string>, k: string)
    requires order != [] && k != order[0]
    ensures Rank(order, k) == 1 + Rank(order[1..], k)
  {
  }

  lemma FilterOfFilter<T(!new)>(s: seq<T>, f: T -> bool, g: T -> bool)
    requires forall x :: x in s && f(x) ==> g(x)
    ensures Tables.Filter(Tables.Filter(s, g), f) == Tables.Filter(s, f)
  {
    if s != [] {
      assert s[0] in s;
      forall x | x in s[1..] && f(x) ensures g(x) {
        assert x in s;
      }
      FilterOfFilter(s[1..], f, g);
    }
  }

  /** The rows of one category keep their original relative order. */
  lemma {:induction false} BucketStable<T(!new)>(s: seq<T>, key: T -> string, order: seq<string>, k: string)
    requires Distinct(order) && k in order
    ensures Tables.Filter(Bucket(s, key, order), HasKey(key, k)) == Tables.Filter(s, HasKey(key, k))
  {
    DistinctTail(order);
    var head := Tables.Filter(s, HasKey(key, order[0]));
    Tables.FilterConcat(head, Bucket(s, key, order[1..]), HasKey(key, k));
    if order[0] == k {
      Tables.FilterKeepsAll(head, HasKey(key, k));
      Tables.FilterDropsAll(Bucket(s, key, order[1..]), HasKey(key, k));
      assert head + [] == head;
    } else {
      Tables.FilterDropsAll(head, HasKey(key, k));
      BucketStable(s, key, order[1..], k);
    }
  }

  // ---------------------------------------------------------------- the monthly summary

  const Unassigned: string := "без А/М"

  function RowManager(r: MonthLoop.SummaryRow): string {
    r.manager
  }

  /** `Менеджер` values other than 'Весь отдел' and 'без А/М', in row order, with repeats. */
  function PlainNames(rows: seq<MonthLoop.SummaryRow>): (r: seq<string>)
    ensures forall n :: n in r <==> n != MonthLoop.Department && n != Unassigned && exists x :: x in rows && x.manager == n
  {
    if rows == [] then []
    else
      assert forall x :: x in rows <==> x == rows[0] || x in rows[1..];
      (if rows[0].manager != MonthLoop.Department && rows[0].manager != Unassigned then [rows[0].manager] else [])
      + PlainNames(rows[1..])
  }

  /** `custom_order` (main.py:166-168). */
  function CustomOrder(rows: seq<MonthLoop.SummaryRow>): seq<string> {
    Text.SortDistinct(PlainNames(rows)) + [Unassigned, MonthLoop.Department]
  }

  /** `summary_df.sort_values('Менеджер')` on the categorical column (main.py:169-170). */
  function SortSummary(rows: seq<MonthLoop.SummaryRow>): seq<MonthLoop.SummaryRow> {
    Bucket(rows, RowManager, CustomOrder(rows))
  }

  lemma CustomOrderShape(rows: seq<MonthLoop.SummaryRow>)
    ensures Distinct(CustomOrder(rows))
    ensures forall x :: x in rows ==> x.manager in CustomOrder(rows)
    ensures CustomOrder(rows)[|CustomOrder(rows)| - 1] == MonthLoop.Department
    ensures CustomOrder(rows)[|CustomOrder(rows)| - 2] == Unassigned
    ensures Text.StrictlySorted(CustomOrder(rows)[..|CustomOrder(rows)| - 2])
  {
    var names := Text.SortDistinct(PlainNames(rows));
    var o := CustomOrder(rows);
    assert o[..|o| - 2] == names;
    forall i, j | 0 <= i < j < |o| ensures o[i] != o[j] {
      if j < |names| {
        Text.LessIrreflexive(o[i]);
      } else if i < |names| {
        assert o[i] in names;
      } else {
        assert MonthLoop.Department != Unassigned;
      }
    }
    forall x | x in rows ensures x.manager in o {
      if x.manager != MonthLoop.Department && x.manager != Unassigned {
        assert x.manager in names;
      } else {
        assert o[|o| - 1] == MonthLoop.Department && o[|o| - 2] == Unassigned;
      }
    }
  }

  /**
   * The sorted summary holds every row exactly as often as before; the
   * manager categories follow the custom order; and each manager's rows keep
   * their month order.
   */
  lemma SortSummaryIsPermutation(rows: seq<MonthLoop.SummaryRow>)
    ensures multiset(SortSummary(rows)) == multiset(rows)
    ensures SortedBy(SortSummary(rows), RankOf(RowManager, CustomOrder(rows)))
    ensures forall k :: k in CustomOrder(rows) ==>
              Tables.Filter(SortSummary(rows), HasKey(RowManager, k)) == Tables.Filter(rows, HasKey(RowManager, k))
  {
    CustomOrderShape(rows);
    var o := CustomOrder(rows);
    BucketPermutation(rows, RowManager, o);
    Tables.FilterKeepsAll(rows, KeyIn(RowManager, o));
    BucketSorted(rows, RowManager, o);
    forall k | k in o ensures Tables.Filter(SortSummary(rows), HasKey(RowManager, k)) == Tables.Filter(rows, HasKey(RowManager, k)) {
      BucketStable(rows, RowManager, o, k);
    }
  }

  // ---------------------------------------------------------------- month columns

  function Present(rows: seq<MonthLoop.SummaryRow>): string -> bool {
    (m: string) => exists x :: x in rows && x.month == m
  }

  /** `correct_month_order` (main.py:173): the calendar names that occur as a month of the summary, in calendar order. */
  function MonthColumns(rows: seq<MonthLoop.SummaryRow>): seq<string> {
    Tables.Filter(Calendar.Months, Present(rows))
  }

  /** A selection that passes exactly the entries from index k on leaves the suffix from k. */
  lemma {:induction false} FilterSuffix<T(!new)>(s: seq<T>, k: nat, p: T -> bool)
    requires k <= |s|
    requires forall i :: 0 <= i < |s| ==> (p(s[i]) <==> k <= i)
    ensures Tables.Filter(s, p) == s[k..]
  {
    if s != [] {
      forall i | 0 <= i < |s| - 1 ensures (p(s[1..][i]) <==> (if k == 0 then 0 else k - 1) <= i) {
        assert s[1..][i] == s[i + 1];
      }
      if k == 0 {
        FilterSuffix(s[1..], 0, p);
      } else {
        FilterSuffix(s[1..], k - 1, p);
      }
    }
  }

  /** Every summary row carries the month name of one of the iterations. */
  lemma {:induction false} SummaryMonths(vs: seq<MonthLoop.MonthValues>, managers: seq<string>)
    ensures forall x :: x in MonthLoop.SummaryOf(vs, managers) ==> exists j :: 0 <= j < |vs| && x.month == vs[j].month
  {
    if vs != [] {
      var init, last := vs[..|vs| - 1], vs[|vs| - 1];
      var pre, rows := MonthLoop.SummaryOf(init, managers), MonthLoop.MonthRows(managers, last);
      MonthLoop.SummarySnoc(vs, managers);
      SummaryMonths(init, managers);
      MonthLoop.MonthRowsShape(managers, last);
      forall x: MonthLoop.SummaryRow | x in pre + rows ensures exists j :: 0 <= j < |vs| && x.month == vs[j].month {
        if x in rows {
          var i :| 0 <= i < |rows| && rows[i] == x;
          assert x.month == vs[|vs| - 1].month;
        } else {
          var j :| 0 <= j < |init| && x.month == init[j].month;
          assert init[j] == vs[j];
        }
      }
    }
  }

  /** Each iteration leaves at least its department row in the summary. */
  lemma {:induction false} SummaryHasMonths(vs: seq<MonthLoop.MonthValues>, managers: seq<string>, j: nat)
    requires j < |vs|
    ensures exists x :: x in MonthLoop.SummaryOf(vs, managers) && x.month == vs[j].month
  {
    var init, last := vs[..|vs| - 1], vs[|vs| - 1];
    var pre, rows := MonthLoop.SummaryOf(init, managers), MonthLoop.MonthRows(managers, last);
    MonthLoop.SummarySnoc(vs, managers);
    if j < |init| {
      SummaryHasMonths(init, managers, j);
      var x :| x in pre && x.month == init[j].month;
      assert init[j] == vs[j];
      assert x in pre + rows;
    } else {
      MonthLoop.MonthRowsShape(managers, last);
      var d := rows[|managers|];
      assert d in pre + rows && d.month == last.month;
    }
  }

  /** Every month from January 2023 on has its rows in the year's summary. */
  lemma YearMonthPresent(obs: seq<LongForm.Observation>, managers: seq<string>, t: Coefficients.LoopIndex)
    ensures Present(MonthLoop.SummaryOf(MonthLoop.Evaluations(obs, Calendar.MonthCount), managers))(Calendar.MonthName(t))
  {
    var vs := MonthLoop.Evaluations(obs, Calendar.MonthCount);
    SummaryHasMonths(vs, managers, t - 2);
    MonthLoop.EvaluationsAt(obs, Calendar.MonthCount, t - 2);
  }

  /** No row of the year's summary belongs to November or December 2022. */
  lemma EarlyMonthsAbsent(obs: seq<LongForm.Observation>, managers: seq<string>, i: nat)
    requires i < 2
    ensures !Present(MonthLoop.SummaryOf(MonthLoop.Evaluations(obs, Calendar.MonthCount), managers))(Calendar.MonthName(i))
  {
    var vs := MonthLoop.Evaluations(obs, Calendar.MonthCount);
    var rows := MonthLoop.SummaryOf(vs, managers);
    SummaryMonths(vs, managers);
    forall x | x in rows ensures x.month != Calendar.MonthName(i) {
      var j :| 0 <= j < |vs| && x.month == vs[j].month;
      MonthLoop.EvaluationsAt(obs, Calendar.MonthCount, j);
      MonthNamesDiffer(i, j + 2);
    }
  }

  lemma MonthNamesDiffer(i: nat, j: nat)
    requires i < j < Calendar.MonthCount
    ensures Calendar.MonthName(i) != Calendar.MonthName(j)
  {
    Calendar.MonthsDistinct();
    Calendar.MonthCountIsLength();
  }

  /** The pivot's month columns are January to December 2023 in calendar order (main.py:173-174). */
  lemma YearMonthColumns(obs: seq<LongForm.Observation>, managers: seq<string>)
    ensures MonthColumns(MonthLoop.SummaryOf(MonthLoop.Evaluations(obs, Calendar.MonthCount), managers)) == Calendar.Months[2..]
  {
    Calendar.MonthCountIsLength();
    var rows := MonthLoop.SummaryOf(MonthLoop.Evaluations(obs, Calendar.MonthCount), managers);
    forall i | 0 <= i < |Calendar.Months| ensures (Present(rows)(Calendar.Months[i]) <==> 2 <= i) {
      if i < 2 {
        EarlyMonthsAbsent(obs, managers, i);
      } else {
        YearMonthPresent(obs, managers, i);
      }
    }
    FilterSuffix(Calendar.Months, 2, Present(rows));
  }
}
