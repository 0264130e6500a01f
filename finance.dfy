/**
 * The two input tables and the stages that bring them together: the
 * column-by-column cleaning of the financial table (main.py:27-33), the sum
 * of duplicate rows per raw id (main.py:36), the stripping of ids
 * (main.py:37-38), the capitalisation of completion months (main.py:18) and
 * the left join of completion rows onto financial rows (main.py:39).
 */
module Finance {
  import opened Wrappers
  import Text
  import Calendar
  import Cells

  /** A row of the financial table as read: an id and one text cell per calendar month. */
  datatype RawFinancialRow = RawFinancialRow(id: string, cells: seq<string>)

  /** A financial row after cleaning: one amount per calendar month. */
  datatype FinancialRow = FinancialRow(id: string, amounts: seq<real>)

  /** A row of the completion table: project id, completion month name, manager (AM) or none. */
  datatype CompletionRow = CompletionRow(id: string, month: string, manager: Option<string>)

  /** A completion row joined with one financial row (a row of `merged_df`). */
  datatype Project = Project(id: string, month: string, manager: Option<string>, amounts: seq<real>)

  /** Every row has a cell for each calendar month; `groupby('id')[month_columns]` fails otherwise (main.py:36). */
  predicate RawWellFormed(raw: seq<RawFinancialRow>) {
    forall r :: 0 <= r < |raw| ==> |raw[r].cells| == Calendar.MonthCount
  }

  predicate WellFormed(rows: seq<FinancialRow>) {
    forall f :: f in rows ==> |f.amounts| == Calendar.MonthCount
  }

  predicate ProjectsWellFormed(ps: seq<Project>) {
    forall p :: p in ps ==> |p.amounts| == Calendar.MonthCount
  }

  /** The cleaning loop (main.py:27-33): each month column in turn is replaced by its normalised values. */
  method NormalizeColumns(raw: seq<RawFinancialRow>) returns (rows: seq<FinancialRow>)
    requires RawWellFormed(raw)
    ensures |rows| == |raw| && WellFormed(rows)
    ensures forall r :: 0 <= r < |raw| ==> rows[r].id == raw[r].id
    ensures forall r, c :: 0 <= r < |raw| && 0 <= c < Calendar.MonthCount ==>
              rows[r].amounts[c] == Cells.Normalize(raw[r].cells[c])
  {
    var n := |raw|;
    var width := Calendar.MonthCount;
    var table := new real[n, width];
    var col := 0;
    while col < width
      invariant 0 <= col <= width
      invariant forall r, c :: 0 <= r < n && 0 <= c < col ==> table[r, c] == Cells.Normalize(raw[r].cells[c])
    {
      NormalizeColumn(raw, table, col);
      col := col + 1;
    }
    rows := seq(n, r reads table requires 0 <= r < n =>
      FinancialRow(raw[r].id, seq(width, c reads table requires 0 <= c < width => table[r, c])));
  }

  /** `financial_data_df[col] = ...` (main.py:29-33): column `col` is overwritten with its normalised cells, the other columns are untouched. */
  method NormalizeColumn(raw: seq<RawFinancialRow>, table: array2<real>, col: nat)
    requires RawWellFormed(raw)
    requires table.Length0 == |raw| && table.Length1 == Calendar.MonthCount && col < Calendar.MonthCount
    modifies table
    ensures forall i :: 0 <= i < |raw| ==> table[i, col] == Cells.Normalize(raw[i].cells[col])
    ensures forall i, c :: 0 <= i < |raw| && 0 <= c < Calendar.MonthCount && c != col ==> table[i, c] == old(table[i, c])
  {
    var r := 0;
    while r < |raw|
      invariant 0 <= r <= |raw|
      invariant forall i :: 0 <= i < r ==> table[i, col] == Cells.Normalize(raw[i].cells[col])
      invariant forall i, c :: 0 <= i < |raw| && 0 <= c < Calendar.MonthCount && c != col ==> table[i, c] == old(table[i, c])
    {
      table[r, col] := Cells.Normalize(raw[r].cells[col]);
      r := r + 1;
    }
  }

  /** The table the cleaning loop produces, as a value. */
  function NormalizedTable(raw: seq<RawFinancialRow>): (rows: seq<FinancialRow>)
    requires RawWellFormed(raw)
  {
    seq(|raw|, r requires 0 <= r < |raw| =>
      FinancialRow(raw[r].id, seq(Calendar.MonthCount, c requires 0 <= c < Calendar.MonthCount => Cells.Normalize(raw[r].cells[c]))))
  }

  lemma NormalizeColumnsIsTable(raw: seq<RawFinancialRow>, rows: seq<FinancialRow>)
    requires RawWellFormed(raw)
    requires |rows| == |raw| && WellFormed(rows)
    requires forall r :: 0 <= r < |raw| ==> rows[r].id == raw[r].id
    requires forall r, c :: 0 <= r < |raw| && 0 <= c < Calendar.MonthCount ==>
               rows[r].amounts[c] == Cells.Normalize(raw[r].cells[c])
    ensures rows == NormalizedTable(raw)
  {
    var t := NormalizedTable(raw);
    forall r | 0 <= r < |raw| ensures rows[r] == t[r] {
      assert rows[r].amounts == t[r].amounts;
    }
  }

  // ---------------------------------------------------------------- groupby('id').sum()

  function Ids(rows: seq<FinancialRow>): (ids: seq<string>)
    ensures |ids| == |rows|
    ensures forall r :: 0 <= r < |rows| ==> ids[r] == rows[r].id
  {
    if rows == [] then [] else [rows[0].id] + Ids(rows[1..])
  }

  /** Sum of column `c` over the rows whose raw id is `id`; the stop marker -1 is added like any amount. */
  function ColumnSum(rows: seq<FinancialRow>, id: string, c: nat): real
    requires WellFormed(rows) && c < Calendar.MonthCount
  {
    if rows == [] then 0.0
    else (if rows[0].id == id then rows[0].amounts[c] else 0.0) + ColumnSum(rows[1..], id, c)
  }

  /** The aggregated row of one id: its column sums. */
  function GroupRow(rows: seq<FinancialRow>, id: string): (g: FinancialRow)
    requires WellFormed(rows)
    ensures g.id == id && |g.amounts| == Calendar.MonthCount
    ensures forall c :: 0 <= c < Calendar.MonthCount ==> g.amounts[c] == ColumnSum(rows, id, c)
  {
    FinancialRow(id, seq(Calendar.MonthCount, c requires 0 <= c < Calendar.MonthCount => ColumnSum(rows, id, c)))
  }

  function GroupRows(rows: seq<FinancialRow>, keys: seq<string>): (agg: seq<FinancialRow>)
    requires WellFormed(rows)
    ensures |agg| == |keys| && WellFormed(agg)
    ensures forall k :: 0 <= k < |keys| ==> agg[k] == GroupRow(rows, keys[k])
  {
    if keys == [] then [] else [GroupRow(rows, keys[0])] + GroupRows(rows, keys[1..])
  }

  /**
   * `financial_data_df.groupby('id')[month_columns].sum().reset_index()` (main.py:36):
   * one row per distinct raw id, in sorted order, holding the column sums of its rows.
   */
  function GroupByRawId(rows: seq<FinancialRow>): (agg: seq<FinancialRow>)
    requires WellFormed(rows)
    ensures WellFormed(agg)
  {
    GroupRows(rows, Text.SortDistinct(Ids(rows)))
  }

  /** The aggregated table has one row per distinct raw id, sorted, each holding the sums over that id's rows. */
  lemma GroupByRawIdSpec(rows: seq<FinancialRow>)
    requires WellFormed(rows)
    ensures Text.StrictlySorted(Ids(GroupByRawId(rows)))
    ensures forall x :: x in Ids(GroupByRawId(rows)) <==> x in Ids(rows)
    ensures forall k, c :: 0 <= k < |GroupByRawId(rows)| && 0 <= c < Calendar.MonthCount ==>
              GroupByRawId(rows)[k].amounts[c] == ColumnSum(rows, GroupByRawId(rows)[k].id, c)
  {
    var keys := Text.SortDistinct(Ids(rows));
    assert Ids(GroupByRawId(rows)) == keys;
  }

  lemma {:induction false} ColumnSumConcat(a: seq<FinancialRow>, b: seq<FinancialRow>, id: string, c: nat)
    requires WellFormed(a) && WellFormed(b) && c < Calendar.MonthCount
    ensures WellFormed(a + b)
    ensures ColumnSum(a + b, id, c) == ColumnSum(a, id, c) + ColumnSum(b, id, c)
  {
    if a == [] {
      assert a + b == b;
    } else {
      assert (a + b)[1..] == a[1..] + b;
      ColumnSumConcat(a[1..], b, id, c);
    }
  }

  /** Rows of other ids do not contribute to an id's sum. */
  lemma {:induction false} ColumnSumAbsent(rows: seq<FinancialRow>, id: string, c: nat)
    requires WellFormed(rows) && c < Calendar.MonthCount
    requires id !in Ids(rows)
    ensures ColumnSum(rows, id, c) == 0.0
  {
    if rows != [] {
      assert Ids(rows[1..]) == Ids(rows)[1..];
      ColumnSumAbsent(rows[1..], id, c);
    }
  }

  /** Every raw id gets exactly one aggregated row, and that row's month value is the sum over the id's rows. */
  lemma AggregationLookup(rows: seq<FinancialRow>, x: string, c: nat)
    requires WellFormed(rows) && c < Calendar.MonthCount
    requires x in Ids(rows)
    ensures exists k :: 0 <= k < |GroupByRawId(rows)| && GroupByRawId(rows)[k].id == x
    ensures forall k :: 0 <= k < |GroupByRawId(rows)| && GroupByRawId(rows)[k].id == x ==>
              GroupByRawId(rows)[k].amounts[c] == ColumnSum(rows, x, c)
    ensures forall k, l :: 0 <= k < l < |GroupByRawId(rows)| ==> GroupByRawId(rows)[k].id != GroupByRawId(rows)[l].id
  {
    var agg := GroupByRawId(rows);
    GroupByRawIdSpec(rows);
    assert x in Ids(agg);
    var k :| 0 <= k < |agg| && Ids(agg)[k] == x;
    assert agg[k].id == x;
    forall k, l | 0 <= k < l < |agg| ensures agg[k].id != agg[l].id {
      SortedDiffer(Ids(agg), k, l);
    }
  }

  lemma SortedDiffer(ids: seq<string>, k: nat, l: nat)
    requires Text.StrictlySorted(ids) && k < l < |ids|
    ensures ids[k] != ids[l]
  {
    Text.LessIrreflexive(ids[k]);
    assert Text.Less(ids[k], ids[l]);
  }

  // ---------------------------------------------------------------- ids, months, join

  /** `financial_data_agg['id'].astype(str).str.strip()` (main.py:38). */
  function StripIds(rows: seq<FinancialRow>): (r: seq<FinancialRow>)
    ensures |r| == |rows|
    ensures forall k :: 0 <= k < |rows| ==> r[k] == FinancialRow(Text.Strip(rows[k].id), rows[k].amounts)
  {
    if rows == [] then [] else [FinancialRow(Text.Strip(rows[0].id), rows[0].amounts)] + StripIds(rows[1..])
  }

  /** main.py:18 and 37: months capitalised, ids stripped. */
  function PrepareCompletion(rows: seq<CompletionRow>): (r: seq<CompletionRow>)
    ensures |r| == |rows|
    ensures forall j :: 0 <= j < |rows| ==>
              r[j] == CompletionRow(Text.Strip(rows[j].id), Text.Capitalize(rows[j].month), rows[j].manager)
  {
    if rows == [] then []
    else [CompletionRow(Text.Strip(rows[0].id), Text.Capitalize(rows[0].month), rows[0].manager)] + PrepareCompletion(rows[1..])
  }

  /** The financial rows whose id is `id`, in order. */
  function Matches(fin: seq<FinancialRow>, id: string): (m: seq<FinancialRow>)
    ensures |m| <= |fin|
    ensures forall x :: x in m <==> x in fin && x.id == id
  {
    if fin == [] then []
    else if fin[0].id == id then [fin[0]] + Matches(fin[1..], id)
    else Matches(fin[1..], id)
  }

  /** The missing financial row of a left join: NaN in every month, which every later use reads as 0. */
  const NoAmounts: seq<real> := Zeros(Calendar.MonthCount)

  function Zeros(n: nat): (z: seq<real>)
    ensures |z| == n && forall c :: 0 <= c < n ==> z[c] == 0.0
  {
    if n == 0 then [] else [0.0] + Zeros(n - 1)
  }

  /** The rows one completion row contributes to a left join: one per matching financial row, or one with no amounts. */
  function JoinOne(p: CompletionRow, fin: seq<FinancialRow>): (out: seq<Project>)
    ensures |out| >= 1
    ensures forall q :: q in out ==> q.id == p.id && q.month == p.month && q.manager == p.manager
  {
    var m := Matches(fin, p.id);
    if m == [] then [Project(p.id, p.month, p.manager, NoAmounts)]
    else seq(|m|, i requires 0 <= i < |m| => Project(p.id, p.month, p.manager, m[i].amounts))
  }

  /** `pd.merge(prolongations_df, financial_data_agg, on='id', how='left')` (main.py:39). */
  function LeftJoin(comp: seq<CompletionRow>, fin: seq<FinancialRow>): (ps: seq<Project>)
    ensures |ps| >= |comp|
  {
    if comp == [] then [] else JoinOne(comp[0], fin) + LeftJoin(comp[1..], fin)
  }

  /** Joined row `q` carries the id, month and AM of completion row `r`. */
  predicate Carries(q: Project, r: CompletionRow) {
    q.id == r.id && q.month == r.month && q.manager == r.manager
  }

  /** The left join keeps every completion row: each one's id, month and AM occur in a joined row. */
  lemma {:induction false} LeftJoinCovers(comp: seq<CompletionRow>, fin: seq<FinancialRow>)
    ensures forall j :: 0 <= j < |comp| ==> exists q :: q in LeftJoin(comp, fin) && Carries(q, comp[j])
  {
    if comp != [] {
      var one, rest := JoinOne(comp[0], fin), LeftJoin(comp[1..], fin);
      var ps := LeftJoin(comp, fin);
      LeftJoinCovers(comp[1..], fin);
      assert ps == one + rest;
      forall j | 0 <= j < |comp| ensures exists q :: q in ps && Carries(q, comp[j]) {
        if j == 0 {
          assert one[0] in one && one[0] in ps;
          assert Carries(one[0], comp[0]);
        } else {
          assert comp[1..][j - 1] == comp[j];
          var q :| q in rest && Carries(q, comp[1..][j - 1]);
          assert q in ps;
        }
      }
    }
  }

  /** Every joined row carries the id, month and AM of some completion row. */
  lemma {:induction false} LeftJoinFromCompletion(comp: seq<CompletionRow>, fin: seq<FinancialRow>)
    ensures forall q :: q in LeftJoin(comp, fin) ==> exists j :: 0 <= j < |comp| && Carries(q, comp[j])
  {
    if comp != [] {
      var one, rest := JoinOne(comp[0], fin), LeftJoin(comp[1..], fin);
      var ps := LeftJoin(comp, fin);
      LeftJoinFromCompletion(comp[1..], fin);
      assert ps == one + rest;
      forall q | q in ps ensures exists j :: 0 <= j < |comp| && Carries(q, comp[j]) {
        if q in one {
          assert Carries(q, comp[0]);
        } else {
          var j :| 0 <= j < |comp[1..]| && Carries(q, comp[1..][j]);
          assert comp[1..][j] == comp[j + 1];
        }
      }
    }
  }

  lemma {:induction false} LeftJoinWellFormed(comp: seq<CompletionRow>, fin: seq<FinancialRow>)
    requires WellFormed(fin)
    ensures ProjectsWellFormed(LeftJoin(comp, fin))
  {
    if comp != [] {
      LeftJoinWellFormed(comp[1..], fin);
      var m := Matches(fin, comp[0].id);
      var one := JoinOne(comp[0], fin);
      forall i | 0 <= i < |one| ensures |one[i].amounts| == Calendar.MonthCount {
        if m != [] {
          assert m[i] in fin;
        }
      }
    }
  }

  predicate DistinctIds(fin: seq<FinancialRow>) {
    forall k, l :: 0 <= k < l < |fin| ==> fin[k].id != fin[l].id
  }

  lemma {:induction false} MatchesOfDistinct(fin: seq<FinancialRow>, id: string)
    requires DistinctIds(fin)
    ensures |Matches(fin, id)| <= 1
  {
    if fin != [] {
      MatchesOfDistinct(fin[1..], id);
      if fin[0].id == id {
        forall x | x in fin[1..] ensures x.id != id {
          var l :| 0 <= l < |fin[1..]| && fin[1..][l] == x;
          assert fin[l + 1] == x;
        }
        NoneMatch(fin[1..], id);
      }
    }
  }

  lemma {:induction false} NoneMatch(fin: seq<FinancialRow>, id: string)
    requires forall x :: x in fin ==> x.id != id
    ensures Matches(fin, id) == []
  {
    if fin != [] {
      assert fin[0] in fin;
      forall x | x in fin[1..] ensures x.id != id {
        assert x in fin;
      }
      NoneMatch(fin[1..], id);
    }
  }

  /** The amounts a completion row receives in the join: its financial row's, or none. */
  function LookupAmounts(fin: seq<FinancialRow>, id: string): seq<real> {
    if Matches(fin, id) == [] then NoAmounts else Matches(fin, id)[0].amounts
  }

  /**
   * With distinct financial ids, the left join keeps every completion row
   * exactly once, in order, and gives it its own financial row or no amounts.
   */
  lemma {:induction false} LeftJoinOnePerRow(comp: seq<CompletionRow>, fin: seq<FinancialRow>)
    requires DistinctIds(fin)
    ensures |LeftJoin(comp, fin)| == |comp|
    ensures forall j :: 0 <= j < |comp| ==>
              LeftJoin(comp, fin)[j] == Project(comp[j].id, comp[j].month, comp[j].manager, LookupAmounts(fin, comp[j].id))
  {
    if comp != [] {
      JoinOneOfDistinct(comp[0], fin);
      LeftJoinOnePerRow(comp[1..], fin);
      var ps := LeftJoin(comp, fin);
      forall j | 0 <= j < |comp|
        ensures ps[j] == Project(comp[j].id, comp[j].month, comp[j].manager, LookupAmounts(fin, comp[j].id))
      {
        if j > 0 {
          assert ps[j] == LeftJoin(comp[1..], fin)[j - 1];
          assert comp[1..][j - 1] == comp[j];
        }
      }
    }
  }

  lemma JoinOneOfDistinct(p: CompletionRow, fin: seq<FinancialRow>)
    requires DistinctIds(fin)
    ensures JoinOne(p, fin) == [Project(p.id, p.month, p.manager, LookupAmounts(fin, p.id))]
  {
    MatchesOfDistinct(fin, p.id);
  }

  /** The ids of the aggregated table stay distinct after stripping when stripping merges no two raw ids. */
  lemma StrippedIdsDistinct(agg: seq<FinancialRow>)
    requires DistinctIds(agg)
    requires forall k, l :: 0 <= k < l < |agg| ==> Text.Strip(agg[k].id) != Text.Strip(agg[l].id)
    ensures DistinctIds(StripIds(agg))
  {
  }

  /**
   * Ids are grouped before they are stripped (main.py:36-38), so a raw id with
   * surrounding spaces forms its own group: "A" and " A" give two aggregated
   * rows that both carry the id "A" afterwards.
   */
  lemma PaddedIdsGroupApart(a: seq<real>, b: seq<real>)
    requires |a| == Calendar.MonthCount && |b| == Calendar.MonthCount
    ensures |StripIds(GroupByRawId([FinancialRow("A", a), FinancialRow(" A", b)]))| == 2
    ensures StripIds(GroupByRawId([FinancialRow("A", a), FinancialRow(" A", b)]))[0].id == "A"
    ensures StripIds(GroupByRawId([FinancialRow("A", a), FinancialRow(" A", b)]))[1].id == "A"
  {
    var rows := [FinancialRow("A", a), FinancialRow(" A", b)];
    PaddedKeys(rows);
    StripA();
  }

  lemma PaddedKeys(rows: seq<FinancialRow>)
    requires WellFormed(rows) && Ids(rows) == ["A", " A"]
    ensures |GroupByRawId(rows)| == 2 && GroupByRawId(rows)[0].id == " A" && GroupByRawId(rows)[1].id == "A"
  {
    var keys: seq<string> := [" A", "A"];
    assert Text.Less(keys[0], keys[1]);
    Text.SortedUnique(Text.SortDistinct(Ids(rows)), keys);
  }

  lemma StripA()
    ensures Text.Strip("A") == "A" && Text.Strip(" A") == "A"
  {
    StripPlainA();
    StripPaddedA();
  }

  lemma StripPlainA()
    ensures Text.Strip("A") == "A"
  {
    Text.StripPadded([], "A", []);
    assert [] + "A" + [] == "A";
  }

  lemma StripPaddedA()
    ensures Text.Strip(" A") == "A"
  {
    Text.StripPadded(" ", "A", []);
    assert " " + "A" + [] == " A";
  }
}
