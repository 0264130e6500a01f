/**
 * The annual rollup (main.py:117-161): the detail rows of the whole year are
 * grouped by AM for each coefficient type, each group's prolongations are
 * divided by its bases, the two results are outer-joined on AM, and the
 * department row, computed over every detail row of the type, is appended.
 * The rows are then ordered by AM: managers first, the department last.
 */
module Annual {
  import opened Wrappers
  import Text
  import Tables
  import opened Coefficients
  import opened MonthLoop

  /** A row of `annual_report_df`: AM, Годовой_К1, Годовой_К2. */
  datatype AnnualRow = AnnualRow(manager: Manager, k1: Coefficient, k2: Coefficient)

  // ---------------------------------------------------------------- groups

  function IsKind(kind: Kind): DetailRow -> bool {
    (d: DetailRow) => d.kind == kind
  }

  function IsManager(m: Manager): DetailRow -> bool {
    (d: DetailRow) => d.manager == m
  }

  /** `detailed_df[detailed_df['Тип_коэф'] == kind]` (main.py:124, 132). */
  function OfKind(details: seq<DetailRow>, kind: Kind): seq<DetailRow> {
    Tables.Filter(details, IsKind(kind))
  }

  /** The group of AM `m` in `groupby('AM')`; after `fillna(0)` the null AM is the group `Filled`, which is not dropped. */
  function OfManager(rows: seq<DetailRow>, m: Manager): seq<DetailRow> {
    Tables.Filter(rows, IsManager(m))
  }

  /** The sum of the column База. */
  function BaseTotal(rows: seq<DetailRow>): real {
    if rows == [] then 0.0 else rows[0].base + BaseTotal(rows[1..])
  }

  /** The sum of the column Пролонгация. */
  function ProlongationTotal(rows: seq<DetailRow>): real {
    if rows == [] then 0.0 else rows[0].prolongation + ProlongationTotal(rows[1..])
  }

  /** Some row of the table has AM `m`. */
  predicate InGroups(rows: seq<DetailRow>, m: Manager) {
    exists d :: d in rows && d.manager == m
  }

  /**
   * Годовой_К of AM `m` after the outer merge and `fillna(0)` (main.py:125-129,
   * 133-137, 148-153): the ratio of the group's sums when `m` has rows of this
   * type, 0 when it has rows only of the other type.
   */
  function AnnualK(details: seq<DetailRow>, kind: Kind, m: Manager): Coefficient {
    var rows := OfKind(details, kind);
    if InGroups(rows, m) then SeriesRatio(ProlongationTotal(OfManager(rows, m)), BaseTotal(OfManager(rows, m)))
    else Finite(0.0)
  }

  /** `total_annual_k1` / `total_annual_k2` (main.py:140-146): every row of the type counts, whatever its AM. */
  function DepartmentAnnual(details: seq<DetailRow>, kind: Kind): real {
    GuardedRatio(ProlongationTotal(OfKind(details, kind)), BaseTotal(OfKind(details, kind)))
  }

  // ---------------------------------------------------------------- order

  /** The manager names of the detail rows other than 'Весь отдел', in row order, with repeats. */
  function Names(rows: seq<DetailRow>): (r: seq<string>)
    ensures forall n :: n in r <==> n != Department && InGroups(rows, Named(n))
  {
    if rows == [] then []
    else
      assert forall d :: d in rows <==> d == rows[0] || d in rows[1..];
      (if rows[0].manager.Named? && rows[0].manager.name != Department then [rows[0].manager.name] else [])
      + Names(rows[1..])
  }

  function AllNamed(names: seq<string>): (r: seq<Manager>)
    ensures |r| == |names|
    ensures forall i :: 0 <= i < |names| ==> r[i] == Named(names[i])
  {
    if names == [] then [] else [Named(names[0])] + AllNamed(names[1..])
  }

  /**
   * `manager_order` as written (main.py:159): `sorted()` of the AM values
   * other than 'Весь отдел', then 'Весь отдел'. The AM `Filled` is the integer
   * 0, which `sorted()` cannot compare with a string: with a name beside it,
   * the line raises TypeError, modelled as None.
   */
  function OrderAsWritten(details: seq<DetailRow>): Option<seq<Manager>> {
    var names := Text.SortDistinct(Names(details));
    if InGroups(details, Filled) && names != [] then None
    else Some(Front(details) + [Named(Department)])
  }

  /**
   * The order the script evidently intends, as in the monthly order
   * (main.py:167-168): sorted names, then the group without a manager, then
   * the department.
   */
  function Order(details: seq<DetailRow>): seq<Manager> {
    Front(details) + [Named(Department)]
  }

  // ---------------------------------------------------------------- report

  function RowsFor(details: seq<DetailRow>, order: seq<Manager>): (r: seq<AnnualRow>)
    ensures |r| == |order|
    ensures forall i :: 0 <= i < |order| ==>
              r[i] == AnnualRow(order[i], AnnualK(details, K1, order[i]), AnnualK(details, K2, order[i]))
  {
    if order == [] then []
    else [AnnualRow(order[0], AnnualK(details, K1, order[0]), AnnualK(details, K2, order[0]))] + RowsFor(details, order[1..])
  }

  /** The row 'Весь отдел' (main.py:155-156). */
  function TotalRow(details: seq<DetailRow>): AnnualRow {
    AnnualRow(Named(Department), Finite(DepartmentAnnual(details, K1)), Finite(DepartmentAnnual(details, K2)))
  }

  /**
   * The rows of `annual_report_df` sorted by AM along `order`: the last entry
   * of `order` is 'Весь отдел', under which a manager of that name (if any)
   * and the total row both sort.
   */
  function Arrange(details: seq<DetailRow>, order: seq<Manager>): seq<AnnualRow>
    requires order != []
  {
    RowsFor(details, order[..|order| - 1])
    + (if InGroups(details, Named(Department)) then RowsFor(details, [Named(Department)]) else [])
    + [TotalRow(details)]
  }

  /** The annual report as written: empty without detail rows (main.py:117-119), None where line 159 raises. */
  function ReportAsWritten(details: seq<DetailRow>): Option<seq<AnnualRow>> {
    if details == [] then Some([])
    else match OrderAsWritten(details)
      case None => None
      case Some(order) => Some(Arrange(details, order))
  }

  /** The annual report with the intended order. */
  function Report(details: seq<DetailRow>): seq<AnnualRow> {
    if details == [] then [] else Arrange(details, Order(details))
  }

  // ---------------------------------------------------------------- properties

  /** Line 159 fails exactly when the detail rows hold a row without a manager beside a named one; otherwise it gives the intended order. */
  lemma OrderAsWrittenFails(details: seq<DetailRow>)
    ensures OrderAsWritten(details).None? <==>
            InGroups(details, Filled) && exists n :: n != Department && InGroups(details, Named(n))
    ensures OrderAsWritten(details).Some? ==> OrderAsWritten(details).value == Order(details)
  {
    var names := Text.SortDistinct(Names(details));
    if names != [] {
      assert names[0] in Names(details);
    }
    if InGroups(details, Filled) && (exists n :: n != Department && InGroups(details, Named(n))) {
      var n :| n != Department && InGroups(details, Named(n));
      assert n in Names(details);
      assert n in names;
    }
  }

  /** A K1 detail row without a manager next to one of manager X: the script stops at line 159 instead of writing a report. */
  lemma MixedManagersCrash()
    ensures ReportAsWritten([DetailRow("a", Filled, 100.0, 50.0, "Февраль 2023", K1),
                             DetailRow("b", Named("X"), 100.0, 80.0, "Февраль 2023", K1)]).None?
  {
    var details := [DetailRow("a", Filled, 100.0, 50.0, "Февраль 2023", K1),
                    DetailRow("b", Named("X"), 100.0, 80.0, "Февраль 2023", K1)];
    assert details[0] in details && details[1] in details;
    assert Department != "X";
    OrderAsWrittenFails(details);
  }

  /** No detail rows, no annual report at all, not even the department row (main.py:117-119). */
  lemma EmptyDetailsNoReport()
    ensures Report([]) == [] && ReportAsWritten([]) == Some([])
  {
  }

  /** The managers of `Order`, before 'Весь отдел'. */
  function Front(details: seq<DetailRow>): seq<Manager> {
    AllNamed(Text.SortDistinct(Names(details))) + (if InGroups(details, Filled) then [Filled] else [])
  }

  lemma FrontMembers(details: seq<DetailRow>)
    ensures forall m :: m in Front(details) <==> m != Named(Department) && InGroups(details, m)
  {
    var names := Text.SortDistinct(Names(details));
    var f := Front(details);
    var k := |names|;
    forall m | m != Named(Department) && InGroups(details, m) ensures m in f {
      if m.Named? {
        assert m.name in Names(details);
        var i :| 0 <= i < |names| && names[i] == m.name;
        assert f[i] == m;
      } else {
        assert f[k] == Filled;
      }
    }
    forall m | m in f ensures m != Named(Department) && InGroups(details, m) {
      var i :| 0 <= i < |f| && f[i] == m;
      if i < k {
        assert m == Named(names[i]);
        assert names[i] in Names(details);
      }
    }
  }

  lemma FrontSorted(details: seq<DetailRow>)
    ensures forall i, j :: 0 <= i < j < |Front(details)| && Front(details)[j].Named? ==>
              Front(details)[i].Named? && Text.Less(Front(details)[i].name, Front(details)[j].name)
  {
  }

  /** The managers are listed in code-point order of their names, each once, then the group without a manager, then 'Весь отдел'. */
  lemma OrderShape(details: seq<DetailRow>)
    ensures Order(details) != [] && Order(details)[|Order(details)| - 1] == Named(Department)
    ensures Order(details)[..|Order(details)| - 1] == Front(details)
    ensures forall i, j :: 0 <= i < j < |Order(details)| - 1 && Order(details)[j].Named? ==>
              Order(details)[i].Named? && Text.Less(Order(details)[i].name, Order(details)[j].name)
    ensures forall m :: m in Order(details)[..|Order(details)| - 1] <==> m != Named(Department) && InGroups(details, m)
  {
    var o := Order(details);
    assert o == Front(details) + [Named(Department)];
    assert o[..|o| - 1] == Front(details);
    FrontMembers(details);
    FrontSorted(details);
  }

  /** The report has one row per AM of the detail rows and the total row last, holding the department ratios. */
  lemma ReportShape(details: seq<DetailRow>)
    requires details != []
    ensures Report(details) != []
    ensures Report(details)[|Report(details)| - 1] == TotalRow(details)
    ensures forall r :: r in Report(details)[..|Report(details)| - 1] ==>
              InGroups(details, r.manager) &&
              r == AnnualRow(r.manager, AnnualK(details, K1, r.manager), AnnualK(details, K2, r.manager))
    ensures forall m :: InGroups(details, m) ==>
              AnnualRow(m, AnnualK(details, K1, m), AnnualK(details, K2, m)) in Report(details)
  {
    var o := Order(details);
    OrderShape(details);
    var front := RowsFor(details, o[..|o| - 1]);
    var dept := if InGroups(details, Named(Department)) then RowsFor(details, [Named(Department)]) else [];
    var rep := Report(details);
    assert rep == front + dept + [TotalRow(details)];
    assert rep[..|rep| - 1] == front + dept;
    forall r | r in rep[..|rep| - 1]
      ensures InGroups(details, r.manager) && r == AnnualRow(r.manager, AnnualK(details, K1, r.manager), AnnualK(details, K2, r.manager))
    {
      if r in front {
        var i :| 0 <= i < |front| && front[i] == r;
        assert o[..|o| - 1][i] in o[..|o| - 1];
      }
    }
    forall m | InGroups(details, m) ensures AnnualRow(m, AnnualK(details, K1, m), AnnualK(details, K2, m)) in rep {
      if m == Named(Department) {
        assert dept[0] in rep;
      } else {
        assert m in o[..|o| - 1];
        var i :| 0 <= i < |o| - 1 && o[..|o| - 1][i] == m;
        assert front[i] in rep;
      }
    }
  }

  /** A manager with rows of one type only gets 0 for the other type, from `fillna(0)` after the outer merge (main.py:147-152). */
  lemma MissingTypeIsZero(details: seq<DetailRow>, m: Manager)
    requires InGroups(OfKind(details, K1), m) && !InGroups(OfKind(details, K2), m)
    ensures AnnualK(details, K2, m) == Finite(0.0)
    ensures InGroups(details, m)
  {
    var d :| d in OfKind(details, K1) && d.manager == m;
  }

  lemma {:induction false} BaseTotalConcat(a: seq<DetailRow>, b: seq<DetailRow>)
    ensures BaseTotal(a + b) == BaseTotal(a) + BaseTotal(b)
    ensures ProlongationTotal(a + b) == ProlongationTotal(a) + ProlongationTotal(b)
  {
    if a == [] {
      assert a + b == b;
    } else {
      assert (a + b)[1..] == a[1..] + b;
      BaseTotalConcat(a[1..], b);
    }
  }

  /** Rows with a name and rows without a manager. */
  function NamedRows(rows: seq<DetailRow>): seq<DetailRow> {
    Tables.Filter(rows, (d: DetailRow) => d.manager.Named?)
  }

  /**
   * Unlike the monthly department value, whose `groupby('AM')` drops the
   * rows without a manager, the annual department sums keep them: they are
   * the sums over the named rows plus those over the group `Filled`.
   */
  lemma {:induction false} AnnualTotalsKeepUnassigned(rows: seq<DetailRow>)
    ensures BaseTotal(rows) == BaseTotal(NamedRows(rows)) + BaseTotal(OfManager(rows, Filled))
    ensures ProlongationTotal(rows) == ProlongationTotal(NamedRows(rows)) + ProlongationTotal(OfManager(rows, Filled))
  {
    if rows != [] {
      AnnualTotalsKeepUnassigned(rows[1..]);
      var d := rows[0];
      if d.manager.Named? {
        BaseTotalConcat([d], NamedRows(rows[1..]));
      } else {
        BaseTotalConcat([d], OfManager(rows[1..], Filled));
      }
    }
  }
}
