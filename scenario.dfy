/**
 * A worked example of the month loop: two projects completed in January
 * 2023, one prolonged in February, the other only in March.
 */

module Scenario {
  import opened Wrappers
  import Calendar
  import Tables
  import Finance
  import LongForm
  import opened Coefficients
  import Retention
  import Cells
  import StopFilter
  import Text

  /** A row of amounts that is zero outside January, February and March 2023. */
  function Amounts(jan: real, feb: real, mar: real): (a: seq<real>)
    ensures |a| == Calendar.MonthCount
    ensures a[2] == jan && a[3] == feb && a[4] == mar
  {
    [0.0, 0.0, jan, feb, mar] + Finance.Zeros(9)
  }

  /** "Январь 2023", the third calendar month. */
  const January: string := Calendar.Months[2]

  /** Project A (manager X) shipped 1000 in January and 800 in February; project B (manager Y) 1000 in January and 250 in March. */
  const Sample: seq<Finance.Project> := [
    Finance.Project("A", January, Some("X"), Amounts(1000.0, 800.0, 0.0)),
    Finance.Project("B", January, Some("Y"), Amounts(1000.0, 0.0, 250.0))
  ]

  lemma SampleWellFormed()
    ensures Finance.ProjectsWellFormed(Sample)
  {
  }

  /** The column sums over a table of two projects. */
  lemma PairSums(p: Finance.Project, q: Finance.Project, m: string, c: nat)
    requires |p.amounts| == Calendar.MonthCount && |q.amounts| == Calendar.MonthCount && c < Calendar.MonthCount
    ensures Retention.ProjectSum([p, q], m, c) ==
            (if p.manager == Some(m) then p.amounts[c] else 0.0) + (if q.manager == Some(m) then q.amounts[c] else 0.0)
    ensures Retention.ManagedProjectSum([p, q], c) ==
            (if p.manager.Some? then p.amounts[c] else 0.0) + (if q.manager.Some? then q.amounts[c] else 0.0)
  {
    var pq, single := [p, q], [q];
    assert pq[1..] == single && single[1..] == [];
    assert Retention.ProjectSum(single, m, c) == if q.manager == Some(m) then q.amounts[c] else 0.0;
    assert Retention.ManagedProjectSum(single, c) == if q.manager.Some? then q.amounts[c] else 0.0;
  }

  /** Both projects were completed at ordinal 3, January 2023. */
  lemma SampleCompletedInJanuary(e: nat)
    requires e == 3
    ensures LongForm.CompletedAt(Sample, e) == Sample
  {
    Calendar.MonthPosition(2);
    assert forall p :: p in Sample ==> p.month == January;
    Tables.FilterKeepsAll(Sample, LongForm.CompletedIn(e));
  }

  /** The January column and the February column of the sample, by manager and in total. */
  lemma JanuaryFebruarySums(c: nat, m: string)
    requires c == 2 || c == 3
    ensures Retention.ProjectSum(Sample, m, c) ==
            (if m == "X" then Sample[0].amounts[c] else 0.0) + (if m == "Y" then Sample[1].amounts[c] else 0.0)
    ensures Retention.ManagedProjectSum(Sample, c) == Sample[0].amounts[c] + Sample[1].amounts[c]
  {
    PairSums(Sample[0], Sample[1], m, c);
  }

  /** At the loop index of February 2023 the K1 projects are the two January projects. */
  lemma FebruaryK1Projects(t: LoopIndex)
    requires t == 3
    ensures Retention.K1Projects(Sample, t) == Sample
    ensures Retention.Column(CurrentMonthNum(t)) == 3 && Retention.Column(PrevMonthNum(t)) == 2
  {
    SampleCompletedInJanuary(PrevMonthNum(t));
  }

  /** X kept 800 of its 1000 from January in February. */
  lemma FebruaryK1OfX(t: LoopIndex)
    requires t == 3
    ensures Get(K1Series(LongForm.Melt(Sample), t), "X") == Finite(0.8)
  {
    SampleWellFormed();
    FebruaryK1Projects(t);
    assert Retention.Manages(Sample, "X") by { assert Sample[0] in Sample; }
    JanuaryFebruarySums(3, "X");
    JanuaryFebruarySums(2, "X");
    Retention.K1FromProjects(Sample, t, "X");
  }

  /** Y kept nothing of its 1000 from January in February. */
  lemma FebruaryK1OfY(t: LoopIndex)
    requires t == 3
    ensures Get(K1Series(LongForm.Melt(Sample), t), "Y") == Finite(0.0)
  {
    SampleWellFormed();
    FebruaryK1Projects(t);
    assert Retention.Manages(Sample, "Y") by { assert Sample[1] in Sample; }
    JanuaryFebruarySums(3, "Y");
    JanuaryFebruarySums(2, "Y");
    Retention.K1FromProjects(Sample, t, "Y");
  }

  /** The department kept 800 of 2000 in February. */
  lemma FebruaryDepartmentK1(t: LoopIndex)
    requires t == 3
    ensures DepartmentK1(LongForm.Melt(Sample), t) == 0.4
  {
    SampleWellFormed();
    FebruaryK1Projects(t);
    JanuaryFebruarySums(3, "");
    JanuaryFebruarySums(2, "");
    assert Retention.ManagedProjectSum(Sample, 3) == 800.0;
    assert Retention.ManagedProjectSum(Sample, 2) == 2000.0;
    Retention.DepartmentK1FromProjects(Sample, t);
    assert GuardedRatio(800.0, 2000.0) == 0.4;
  }

  /**
   * At the loop index of March 2023 the K2 base is January again, but A,
   * prolonged in February, is excluded: Y recovered 250 of 1000, X has no K2
   * project at all.
   */
  lemma MarchK2(t: LoopIndex)
    requires t == 4
    ensures Get(K2Series(LongForm.Melt(Sample), t), "Y") == Finite(0.25)
    ensures Get(K2Series(LongForm.Melt(Sample), t), "X") == Finite(0.0)
    ensures DepartmentK2(LongForm.Melt(Sample), t) == 0.25
  {
    SampleWellFormed();
    SampleCompletedInJanuary(Prev2MonthNum(t));
    assert Retention.UniqueIds(Sample);
    Retention.K2ProjectsOfUniqueIds(Sample, t);
    var k2 := Retention.K2Projects(Sample, t);
    assert k2 == [Sample[1]];
    assert Retention.Manages(k2, "Y") by { assert k2[0] in k2; }
    assert !Retention.Manages(k2, "X");
    Retention.K2FromProjects(Sample, t, "X");
    Retention.K2FromProjects(Sample, t, "Y");
    Retention.DepartmentK2FromProjects(Sample, t);
  }

  /** The aggregated row of one raw id that occurs in two rows: the column sums of both. */
  lemma TwoRowsOneGroup(x: string, a: seq<real>, b: seq<real>)
    requires |a| == Calendar.MonthCount && |b| == Calendar.MonthCount
    ensures Finance.WellFormed([Finance.FinancialRow(x, a), Finance.FinancialRow(x, b)])
    ensures |Finance.GroupByRawId([Finance.FinancialRow(x, a), Finance.FinancialRow(x, b)])| == 1
    ensures Finance.GroupByRawId([Finance.FinancialRow(x, a), Finance.FinancialRow(x, b)])[0].id == x
    ensures forall k :: 0 <= k < Calendar.MonthCount ==>
              Finance.GroupByRawId([Finance.FinancialRow(x, a), Finance.FinancialRow(x, b)])[0].amounts[k] == a[k] + b[k]
  {
    var rows := [Finance.FinancialRow(x, a), Finance.FinancialRow(x, b)];
    assert Finance.WellFormed(rows);
    var ids := Finance.Ids(rows);
    assert ids == [x, x];
    var keys := Text.SortDistinct(ids);
    assert Text.StrictlySorted([x]);
    Text.SortedUnique(keys, [x]);
    var g := Finance.GroupRow(rows, x);
    forall k | 0 <= k < Calendar.MonthCount ensures g.amounts[k] == a[k] + b[k] {
      assert rows[1..] == [Finance.FinancialRow(x, b)];
      assert rows[1..][1..] == [];
      assert Finance.ColumnSum(rows, x, k) == a[k] + Finance.ColumnSum(rows[1..], x, k);
    }
  }

  /**
   * The stop test sees the aggregated sum (main.py:36-52): a raw id with a -1
   * in one row and 500 in another for the same month is grouped into 499 for
   * that month, so its joined project is kept when no other month sums to -1.
   */
  lemma SummedStopIsNoStop(x: string, a: seq<real>, b: seq<real>, c: nat, r: Finance.CompletionRow)
    requires |a| == Calendar.MonthCount && |b| == Calendar.MonthCount && c < Calendar.MonthCount
    requires a[c] == Cells.StopMarker && b[c] == 500.0
    requires forall k :: 0 <= k < Calendar.MonthCount ==> a[k] + b[k] != Cells.StopMarker
    requires Text.Strip(x) == x && r.id == x
    ensures |Finance.LeftJoin([r], Finance.StripIds(Finance.GroupByRawId([Finance.FinancialRow(x, a), Finance.FinancialRow(x, b)])))| == 1
    ensures Finance.LeftJoin([r], Finance.StripIds(Finance.GroupByRawId([Finance.FinancialRow(x, a), Finance.FinancialRow(x, b)])))[0].amounts[c] == 499.0
    ensures StopFilter.Kept(Finance.LeftJoin([r], Finance.StripIds(Finance.GroupByRawId([Finance.FinancialRow(x, a), Finance.FinancialRow(x, b)])))[0])
  {
    TwoRowsOneGroup(x, a, b);
    var agg := Finance.GroupByRawId([Finance.FinancialRow(x, a), Finance.FinancialRow(x, b)]);
    var fin := Finance.StripIds(agg);
    assert fin == [Finance.FinancialRow(x, agg[0].amounts)];
    assert Finance.DistinctIds(fin);
    Finance.LeftJoinOnePerRow([r], fin);
    assert Finance.Matches(fin, x) == [fin[0]];
    var p := Finance.LeftJoin([r], fin)[0];
    assert p.amounts == agg[0].amounts;
  }
}
