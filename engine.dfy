/**
 * The script as a whole (main.py:4-174): load both tables, clean and
 * aggregate the financial data, join it to the completions, drop the stopped
 * projects, melt, run the month loop, and build the annual report, the sorted
 * summary and the month columns of the pivot.
 */

module Engine {
  import opened Wrappers
  import Calendar
  import Cells
  import Finance
  import StopFilter
  import LongForm
  import MonthLoop
  import Annual
  import Ordering
  import Tables

  /** The sheets the script writes: the annual report, the sorted summary, the pivot's month columns and the detail rows. */
  datatype Reports = Reports(
    annual: seq<Annual.AnnualRow>,
    summary: seq<MonthLoop.SummaryRow>,
    months: seq<string>,
    detailed: seq<MonthLoop.DetailRow>)

  /** The cleaned financial table, aggregated by id with the ids stripped (main.py:27-38). */
  function Aggregated(raw: seq<Finance.RawFinancialRow>): (agg: seq<Finance.FinancialRow>)
    requires Finance.RawWellFormed(raw)
    ensures Finance.WellFormed(agg)
  {
    var rows := Finance.NormalizedTable(raw);
    assert Finance.WellFormed(rows) by {
      forall f | f in rows ensures |f.amounts| == Calendar.MonthCount {
        var r :| 0 <= r < |rows| && rows[r] == f;
      }
    }
    var grouped := Finance.GroupByRawId(rows);
    var stripped := Finance.StripIds(grouped);
    assert Finance.WellFormed(stripped) by {
      forall f | f in stripped ensures |f.amounts| == Calendar.MonthCount {
        var k :| 0 <= k < |stripped| && stripped[k] == f;
        assert grouped[k] in grouped;
      }
    }
    stripped
  }

  /** `analytics_df` (main.py:18-52): the joined rows that `check_for_stop` does not mark. */
  function Analytics(raw: seq<Finance.RawFinancialRow>, comp: seq<Finance.CompletionRow>): (ps: seq<Finance.Project>)
    requires Finance.RawWellFormed(raw)
    ensures Finance.ProjectsWellFormed(ps)
    ensures forall p :: p in ps ==> !StopFilter.IsStopped(p)
  {
    var completion := Finance.PrepareCompletion(comp);
    var agg := Aggregated(raw);
    Finance.LeftJoinWellFormed(completion, agg);
    StopFilter.Survivors(Finance.LeftJoin(completion, agg))
  }

  /**
   * What the script produces from the two tables: nothing when either is
   * empty (main.py:11-13), the four sheets otherwise.
   */
  function ReportOf(raw: seq<Finance.RawFinancialRow>, comp: seq<Finance.CompletionRow>): (r: Option<Reports>)
    requires Finance.RawWellFormed(raw)
    ensures r.None? <==> raw == [] || comp == []
  {
    if raw == [] || comp == [] then None
    else
      var ps := Analytics(raw, comp);
      var obs := LongForm.Melt(ps);
      var summary := MonthLoop.SummaryOf(MonthLoop.Evaluations(obs, Calendar.MonthCount), MonthLoop.Roster(ps));
      var detailed := MonthLoop.DetailsUpTo(obs, Calendar.MonthCount);
      var sorted := Ordering.SortSummary(summary);
      Some(Reports(Annual.Report(detailed), sorted, Ordering.MonthColumns(sorted), detailed))
  }

  /** The script, stage by stage, in the order of main.py. */
  method Run(raw: seq<Finance.RawFinancialRow>, comp: seq<Finance.CompletionRow>) returns (out: Option<Reports>)
    requires Finance.RawWellFormed(raw)
    ensures out == ReportOf(raw, comp)
  {
    if raw == [] || comp == [] {
      return None;
    }
    var completion := Finance.PrepareCompletion(comp);
    var rows := Finance.NormalizeColumns(raw);
    Finance.NormalizeColumnsIsTable(raw, rows);
    var agg := Finance.StripIds(Finance.GroupByRawId(rows));
    assert agg == Aggregated(raw);
    Finance.LeftJoinWellFormed(completion, agg);
    var joined := Finance.LeftJoin(completion, agg);
    var analytics := StopFilter.ExcludeStopped(joined);
    var obs := LongForm.Melt(analytics);
    var managers := MonthLoop.Roster(analytics);
    var summary, detailed := MonthLoop.ComputeMonthly(obs, managers);
    var annual := Annual.Report(detailed);
    var sorted := Ordering.SortSummary(summary);
    out := Some(Reports(annual, sorted, Ordering.MonthColumns(sorted), detailed));
  }

  // ---------------------------------------------------------------- properties

  /** A project marked by `check_for_stop` leaves no trace: no observation holds the stop marker at or before its completion month. */
  lemma ObservationsStopFree(raw: seq<Finance.RawFinancialRow>, comp: seq<Finance.CompletionRow>)
    requires Finance.RawWellFormed(raw)
    ensures forall o :: o in LongForm.Melt(Analytics(raw, comp)) && o.endNum.Some? && o.shipNum <= o.endNum.value ==>
              o.amount != Cells.StopMarker
  {
    LongForm.MeltOfKeptIsStopFree(Analytics(raw, comp));
  }

  /** The pivot's month columns are January to December 2023, whatever the input (main.py:172-174). */
  lemma ReportMonths(raw: seq<Finance.RawFinancialRow>, comp: seq<Finance.CompletionRow>)
    requires Finance.RawWellFormed(raw) && raw != [] && comp != []
    ensures ReportOf(raw, comp).value.months == Calendar.Months[2..]
  {
    var ps := Analytics(raw, comp);
    var obs := LongForm.Melt(ps);
    var summary := MonthLoop.SummaryOf(MonthLoop.Evaluations(obs, Calendar.MonthCount), MonthLoop.Roster(ps));
    var sorted := Ordering.SortSummary(summary);
    Ordering.SortSummaryIsPermutation(summary);
    forall m | m in Calendar.Months ensures Ordering.Present(sorted)(m) == Ordering.Present(summary)(m) {
      forall x | x in sorted ensures x in summary {
        assert x in multiset(sorted);
      }
      forall x | x in summary ensures x in sorted {
        assert x in multiset(summary);
      }
    }
    Tables.FilterAgree(Calendar.Months, Ordering.Present(sorted), Ordering.Present(summary));
    Ordering.YearMonthColumns(obs, MonthLoop.Roster(ps));
  }

  /**
   * The summary sheet holds the twelve month blocks of one row per manager
   * and the department row, reordered; the annual sheet is empty without
   * detail rows and ends with the department row otherwise (main.py:117-170).
   */
  lemma ReportSheets(raw: seq<Finance.RawFinancialRow>, comp: seq<Finance.CompletionRow>)
    requires Finance.RawWellFormed(raw) && raw != [] && comp != []
    ensures multiset(ReportOf(raw, comp).value.summary) ==
            multiset(MonthLoop.SummaryOf(MonthLoop.Evaluations(LongForm.Melt(Analytics(raw, comp)), Calendar.MonthCount), MonthLoop.Roster(Analytics(raw, comp))))
    ensures |ReportOf(raw, comp).value.summary| == 12 * (|MonthLoop.Roster(Analytics(raw, comp))| + 1)
    ensures ReportOf(raw, comp).value.detailed == [] ==> ReportOf(raw, comp).value.annual == []
    ensures ReportOf(raw, comp).value.detailed != [] ==>
              ReportOf(raw, comp).value.annual != [] &&
              ReportOf(raw, comp).value.annual[|ReportOf(raw, comp).value.annual| - 1] == Annual.TotalRow(ReportOf(raw, comp).value.detailed)
  {
    var ps := Analytics(raw, comp);
    var obs := LongForm.Melt(ps);
    var summary := MonthLoop.SummaryOf(MonthLoop.Evaluations(obs, Calendar.MonthCount), MonthLoop.Roster(ps));
    var detailed := MonthLoop.DetailsUpTo(obs, Calendar.MonthCount);
    Ordering.SortSummaryIsPermutation(summary);
    MonthLoop.YearSummaryLength(obs, MonthLoop.Roster(ps));
    assert |Ordering.SortSummary(summary)| == |summary| by {
      assert |multiset(Ordering.SortSummary(summary))| == |multiset(summary)|;
    }
    if detailed != [] {
      Annual.ReportShape(detailed);
    }
  }
}
