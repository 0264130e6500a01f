/**
 * The month loop (main.py:61-115): for each loop index t in 2..13 it appends
 * one summary row per manager of the roster and one department row to
 * `results_summary`, and the K1 and K2 detail rows of the month to
 * `results_detailed`.
 */
module MonthLoop {
  import opened Wrappers
  import Calendar
  import Tables
  import Finance
  import LongForm
  import opened Coefficients

  /** A row of `results_summary`: month, manager, K1, K2 (main.py:96, 99). */
  datatype SummaryRow = SummaryRow(month: string, manager: string, k1: Coefficient, k2: Coefficient)

  /** The name of the department row. */
  const Department: string := "Весь отдел"

  /**
   * The AM of a detail row: `fillna(0)` (main.py:103, 111) turns a null AM
   * into the number 0, kept apart from the names as `Filled`.
   */
  datatype Manager = Named(name: string) | Filled

  datatype Kind = K1 | K2

  /** A row of `results_detailed`: id, AM, База, Пролонгация, Месяц_расчета, Тип_коэф. */
  datatype DetailRow = DetailRow(id: string, manager: Manager, base: real, prolongation: real, month: string, kind: Kind)

  /**
   * The AM cell of a detail row: a null AM becomes the 0 of `fillna(0)`.
   * The ensures only spell out the match for the solver; `MergeOne` states
   * what the cell means for a detail row.
   */
  function ManagerCell(m: Option<string>): (r: Manager)
    ensures m.None? <==> r == Filled
    ensures m.Some? ==> r == Named(m.value)
  {
    match m
    case None => Filled
    case Some(n) => Named(n)
  }

  // ---------------------------------------------------------------- the roster

  /** `analytics_df['AM'].dropna().unique()` (main.py:63): non-null managers in order of first appearance. */
  function Roster(ps: seq<Finance.Project>): (r: seq<string>)
    ensures DistinctKeys(r)
    ensures forall m :: m in r <==> exists p :: p in ps && p.manager == Some(m)
    decreases |ps|
  {
    if ps == [] then []
    else
      var init := ps[..|ps| - 1];
      var last := ps[|ps| - 1];
      assert ps == init + [last];
      assert forall p :: p in ps <==> p in init || p == last;
      var r := Roster(init);
      if last.manager.None? || last.manager.value in r then r else r + [last.manager.value]
  }

  // ---------------------------------------------------------------- summary rows

  /** The rows `{month, manager, k1.get(manager, 0), k2.get(manager, 0)}` for each manager in turn (main.py:95-96). */
  function ManagerRows(month: string, managers: seq<string>, k1: map<string, Coefficient>, k2: map<string, Coefficient>): (rows: seq<SummaryRow>)
    ensures |rows| == |managers|
    ensures forall i :: 0 <= i < |managers| ==> rows[i] == SummaryRow(month, managers[i], Get(k1, managers[i]), Get(k2, managers[i]))
  {
    if managers == [] then []
    else [SummaryRow(month, managers[0], Get(k1, managers[0]), Get(k2, managers[0]))] + ManagerRows(month, managers[1..], k1, k2)
  }

  /** What one iteration computes: `month_name`, `k1`, `k2` (main.py:79, 91, 93), `total_k1`, `total_k2` (main.py:97-98). */
  datatype MonthValues = MonthValues(month: string, k1: map<string, Coefficient>, k2: map<string, Coefficient>, totalK1: real, totalK2: real)

  /** The values of loop index t, from their definitions over the observations. */
  function Evaluate(obs: seq<Observation>, t: LoopIndex): MonthValues {
    MonthValues(Calendar.MonthName(t), K1Series(obs, t), K2Series(obs, t), DepartmentK1(obs, t), DepartmentK2(obs, t))
  }

  /** The rows iteration t appends to `results_summary`: one per manager, then 'Весь отдел' (main.py:95-99). */
  function MonthRows(managers: seq<string>, v: MonthValues): seq<SummaryRow> {
    ManagerRows(v.month, managers, v.k1, v.k2)
    + [SummaryRow(v.month, Department, Finite(v.totalK1), Finite(v.totalK2))]
  }

  /** The values of the iterations 2..t - 1, in loop order. */
  function Evaluations(obs: seq<Observation>, t: nat): (vs: seq<MonthValues>)
    requires 2 <= t <= Calendar.MonthCount
    ensures |vs| == t - 2
  {
    seq(t - 2, j requires 0 <= j < t - 2 => Evaluate(obs, j + 2))
  }

  /** `results_summary` after the iterations whose values are `vs`, in loop order. */
  function SummaryOf(vs: seq<MonthValues>, managers: seq<string>): seq<SummaryRow>
  {
    if vs == [] then [] else SummaryOf(vs[..|vs| - 1], managers) + MonthRows(managers, vs[|vs| - 1])
  }

  // ---------------------------------------------------------------- detail rows

  function SameId(id: string): Observation -> bool {
    (o: Observation) => o.id == id
  }

  /** The merged rows of base row `b` with each of its matches. */
  function MatchRows(b: Observation, ms: seq<Observation>, month: string, kind: Kind): (out: seq<DetailRow>)
    ensures |out| == |ms|
    ensures forall i :: 0 <= i < |ms| ==> out[i] == DetailRow(b.id, ManagerCell(b.manager), b.amount, ms[i].amount, month, kind)
  {
    if ms == [] then []
    else [DetailRow(b.id, ManagerCell(b.manager), b.amount, ms[0].amount, month, kind)] + MatchRows(b, ms[1..], month, kind)
  }

  /** The rows one base row contributes to `pd.merge(base, prol, on='id', how='left').fillna(0)`. */
  function MergeOne(b: Observation, prol: seq<Observation>, month: string, kind: Kind): (out: seq<DetailRow>)
    ensures |out| == if Tables.Filter(prol, SameId(b.id)) == [] then 1 else |Tables.Filter(prol, SameId(b.id))|
    ensures forall i :: 0 <= i < |out| ==>
              out[i] == DetailRow(b.id, ManagerCell(b.manager), b.amount,
                                  if Tables.Filter(prol, SameId(b.id)) == [] then 0.0 else Tables.Filter(prol, SameId(b.id))[i].amount,
                                  month, kind)
    ensures forall d :: d in out ==>
              (d.id == b.id && d.manager == ManagerCell(b.manager) && d.base == b.amount && d.month == month && d.kind == kind)
  {
    if Tables.Filter(prol, SameId(b.id)) == [] then [DetailRow(b.id, ManagerCell(b.manager), b.amount, 0.0, month, kind)]
    else MatchRows(b, Tables.Filter(prol, SameId(b.id)), month, kind)
  }

  /** `pd.merge(base, prol, on='id', how='left').fillna(0)` tagged with the month and type (main.py:101-114). */
  function DetailMerge(bases: seq<Observation>, prol: seq<Observation>, month: string, kind: Kind): (out: seq<DetailRow>)
    ensures |out| >= |bases|
    ensures forall d :: d in out ==> d.month == month && d.kind == kind
  {
    if bases == [] then [] else MergeOne(bases[0], prol, month, kind) + DetailMerge(bases[1..], prol, month, kind)
  }

  /** No two rows of `prol` share an id, as when each project id occurs once in the completion table. */
  predicate DistinctObservationIds(prol: seq<Observation>) {
    forall i, j :: 0 <= i < j < |prol| ==> prol[i].id != prol[j].id
  }

  /** The `Пролонгация` a base row with this id receives: the amount of the first row of `prol` with the id, or the 0 of `fillna(0)`. */
  function FirstProlongation(id: string, prol: seq<Observation>): real {
    if prol == [] then 0.0
    else if prol[0].id == id then prol[0].amount
    else FirstProlongation(id, prol[1..])
  }

  lemma {:induction false} SameIdMatches(prol: seq<Observation>, id: string)
    ensures Tables.Filter(prol, SameId(id)) != [] ==> Tables.Filter(prol, SameId(id))[0].amount == FirstProlongation(id, prol)
    ensures Tables.Filter(prol, SameId(id)) == [] ==> FirstProlongation(id, prol) == 0.0
    ensures DistinctObservationIds(prol) ==> |Tables.Filter(prol, SameId(id))| <= 1
  {
    if prol != [] {
      var rest := prol[1..];
      var f, g := Tables.Filter(prol, SameId(id)), Tables.Filter(rest, SameId(id));
      if DistinctObservationIds(prol) {
        assert DistinctObservationIds(rest) by {
          forall i, j | 0 <= i < j < |rest| ensures rest[i].id != rest[j].id {
            assert rest[i] == prol[i + 1] && rest[j] == prol[j + 1];
          }
        }
      }
      SameIdMatches(rest, id);
      if prol[0].id == id {
        assert SameId(id)(prol[0]);
        assert f == [prol[0]] + g;
        if DistinctObservationIds(prol) {
          forall x | x in rest ensures !SameId(id)(x) {
            var l :| 0 <= l < |rest| && rest[l] == x;
            assert prol[l + 1] == x;
          }
          Tables.FilterDropsAll(rest, SameId(id));
        }
      } else {
        assert !SameId(id)(prol[0]);
        assert f == g;
      }
    }
  }

  /**
   * When `prol` has at most one row per id, the left merge keeps each base
   * row exactly once, in order, with its id, AM cell and База, and the
   * matching Пролонгация or 0 (main.py:101-114).
   */
  lemma {:induction false} DetailMergeOnePerRow(bases: seq<Observation>, prol: seq<Observation>, month: string, kind: Kind)
    requires DistinctObservationIds(prol)
    ensures |DetailMerge(bases, prol, month, kind)| == |bases|
    ensures forall i :: 0 <= i < |bases| ==>
              DetailMerge(bases, prol, month, kind)[i]
              == DetailRow(bases[i].id, ManagerCell(bases[i].manager), bases[i].amount, FirstProlongation(bases[i].id, prol), month, kind)
  {
    if bases != [] {
      var b := bases[0];
      SameIdMatches(prol, b.id);
      var one := MergeOne(b, prol, month, kind);
      assert |one| == 1;
      assert one[0] == DetailRow(b.id, ManagerCell(b.manager), b.amount, FirstProlongation(b.id, prol), month, kind);
      var rest := DetailMerge(bases[1..], prol, month, kind);
      DetailMergeOnePerRow(bases[1..], prol, month, kind);
      var out := DetailMerge(bases, prol, month, kind);
      assert out == one + rest;
      forall i | 0 <= i < |bases|
        ensures out[i] == DetailRow(bases[i].id, ManagerCell(bases[i].manager), bases[i].amount, FirstProlongation(bases[i].id, prol), month, kind)
      {
        if i > 0 {
          assert out[i] == rest[i - 1];
          assert bases[1..][i - 1] == bases[i];
        }
      }
    }
  }

  /** The detail rows of loop index t: K1 rows, then K2 rows. */
  function MonthDetails(obs: seq<Observation>, t: LoopIndex): seq<DetailRow> {
    DetailMerge(BaseK1(obs, t), ProlK1(obs, t), Calendar.MonthName(t), K1)
    + DetailMerge(BaseK2(obs, t), ProlK2(obs, t), Calendar.MonthName(t), K2)
  }

  /** `results_detailed` after the iterations 2..t - 1. */
  function DetailsUpTo(obs: seq<Observation>, t: nat): seq<DetailRow>
    requires 2 <= t <= Calendar.MonthCount
  {
    if t == 2 then [] else DetailsUpTo(obs, t - 1) + MonthDetails(obs, t - 1)
  }

  // ---------------------------------------------------------------- the loop

  /** One iteration's grouped sums and ratios (main.py:67-98), and its two detail merges (main.py:101-114). */
  method ComputeMonth(obs: seq<Observation>, t: LoopIndex) returns (v: MonthValues, detailsK1: seq<DetailRow>, detailsK2: seq<DetailRow>)
    ensures v == Evaluate(obs, t)
    ensures detailsK1 + detailsK2 == MonthDetails(obs, t)
  {
    var currentMonthNum, prevMonthNum, prev2MonthNum := CurrentMonthNum(t), PrevMonthNum(t), Prev2MonthNum(t);
    var baseK1Df := LongForm.SelectEnd(obs, prevMonthNum);
    var sumBaseK1 := GroupSum(LongForm.SelectShip(baseK1Df, prevMonthNum));
    var sumProlongedK1 := GroupSum(LongForm.SelectShip(baseK1Df, currentMonthNum));
    var k1 := Divide(sumProlongedK1, sumBaseK1);

    var baseK2Df := LongForm.SelectEnd(obs, prev2MonthNum);
    var prolongedIds := ProlongedIds(baseK2Df, t);
    var filtered := Tables.Filter(baseK2Df, NotAmong(prolongedIds));
    var sumBaseK2 := GroupSum(LongForm.SelectShip(filtered, prev2MonthNum));
    var sumProlongedK2 := GroupSum(LongForm.SelectShip(filtered, currentMonthNum));
    var k2 := Divide(sumProlongedK2, sumBaseK2);

    var totalK1 := GuardedRatio(SeriesTotal(LongForm.SelectShip(baseK1Df, currentMonthNum)), SeriesTotal(LongForm.SelectShip(baseK1Df, prevMonthNum)));
    var totalK2 := GuardedRatio(SeriesTotal(LongForm.SelectShip(filtered, currentMonthNum)), SeriesTotal(LongForm.SelectShip(filtered, prev2MonthNum)));
    var monthName := Calendar.MonthName(t);
    v := MonthValues(monthName, k1, k2, totalK1, totalK2);

    detailsK1 := DetailMerge(LongForm.SelectShip(baseK1Df, prevMonthNum), LongForm.SelectShip(baseK1Df, currentMonthNum), monthName, K1);
    detailsK2 := DetailMerge(LongForm.SelectShip(filtered, prev2MonthNum), LongForm.SelectShip(filtered, currentMonthNum), monthName, K2);
  }

  /** The appends of one iteration to `results_summary` (main.py:95-99). */
  method EmitSummary(managers: seq<string>, v: MonthValues) returns (rows: seq<SummaryRow>)
    ensures rows == MonthRows(managers, v)
  {
    var monthName := v.month;
    rows := [];
    var i := 0;
    while i < |managers|
      invariant 0 <= i <= |managers|
      invariant |rows| == i
      invariant forall j :: 0 <= j < i ==> rows[j] == SummaryRow(monthName, managers[j], Get(v.k1, managers[j]), Get(v.k2, managers[j]))
    {
      var manager := managers[i];
      rows := rows + [SummaryRow(monthName, manager, Get(v.k1, manager), Get(v.k2, manager))];
      i := i + 1;
    }
    assert rows == ManagerRows(monthName, managers, v.k1, v.k2);
    rows := rows + [SummaryRow(monthName, Department, Finite(v.totalK1), Finite(v.totalK2))];
  }

  /** The month loop (main.py:66-115), appending to both result lists; an empty detail merge appends nothing. */
  method ComputeMonthly(obs: seq<Observation>, managers: seq<string>) returns (summary: seq<SummaryRow>, detailed: seq<DetailRow>)
    ensures summary == SummaryOf(Evaluations(obs, Calendar.MonthCount), managers)
    ensures detailed == DetailsUpTo(obs, Calendar.MonthCount)
  {
    summary := [];
    detailed := [];
    var t: nat := 2;
    while t < Calendar.MonthCount
      invariant 2 <= t <= Calendar.MonthCount
      invariant summary == SummaryOf(Evaluations(obs, t), managers)
      invariant detailed == DetailsUpTo(obs, t)
    {
      var v, detailsK1, detailsK2 := ComputeMonth(obs, t);
      var rows := EmitSummary(managers, v);
      SummaryStep(obs, managers, t);
      summary := summary + rows;
      ghost var before := detailed;
      detailed := ExtendIfAny(detailed, detailsK1);
      detailed := ExtendIfAny(detailed, detailsK2);
      DetailsStep(obs, t, before, detailsK1, detailsK2);
      t := t + 1;
    }
  }

  /** `if not details.empty: results_detailed.extend(...)` (main.py:104-107, 112-115). */
  method ExtendIfAny(detailed: seq<DetailRow>, details: seq<DetailRow>) returns (r: seq<DetailRow>)
    ensures r == detailed + details
  {
    r := detailed;
    if details != [] {
      r := r + details;
    }
  }

  lemma DetailsStep(obs: seq<Observation>, t: LoopIndex, before: seq<DetailRow>, d1: seq<DetailRow>, d2: seq<DetailRow>)
    requires before == DetailsUpTo(obs, t) && d1 + d2 == MonthDetails(obs, t)
    ensures before + d1 + d2 == DetailsUpTo(obs, t + 1)
  {
    assert before + d1 + d2 == before + (d1 + d2);
  }

  lemma SummaryStep(obs: seq<Observation>, managers: seq<string>, t: LoopIndex)
    ensures SummaryOf(Evaluations(obs, t + 1), managers) ==
            SummaryOf(Evaluations(obs, t), managers) + MonthRows(managers, Evaluate(obs, t))
  {
    var vs, next := Evaluations(obs, t), Evaluations(obs, t + 1);
    assert next[..|vs|] == vs;
    assert next[|vs|] == Evaluate(obs, t);
  }

  // ---------------------------------------------------------------- shape

  /** Each iteration emits one row per roster manager, in roster order, then the department row, all for its month. */
  lemma MonthRowsShape(managers: seq<string>, v: MonthValues)
    ensures |MonthRows(managers, v)| == |managers| + 1
    ensures forall i :: 0 <= i < |managers| ==>
              MonthRows(managers, v)[i] == SummaryRow(v.month, managers[i], Get(v.k1, managers[i]), Get(v.k2, managers[i]))
    ensures MonthRows(managers, v)[|managers|] == SummaryRow(v.month, Department, Finite(v.totalK1), Finite(v.totalK2))
  {
  }

  /** Where the rows of the j-th iteration start in `results_summary`: each iteration adds |managers| + 1 rows. */
  function BlockStart(j: nat, managers: seq<string>): nat {
    j * (|managers| + 1)
  }

  lemma BlockStartSucc(j: nat, managers: seq<string>)
    ensures BlockStart(j + 1, managers) == BlockStart(j, managers) + |managers| + 1
  {
    LongForm.MulSucc(j, |managers| + 1);
  }

  lemma {:induction false} SummaryLength(vs: seq<MonthValues>, managers: seq<string>)
    ensures |SummaryOf(vs, managers)| == BlockStart(|vs|, managers)
  {
    if vs != [] {
      SummaryLength(vs[..|vs| - 1], managers);
      MonthRowsShape(managers, vs[|vs| - 1]);
      LongForm.MulSucc(|vs| - 1, |managers| + 1);
    }
  }

  lemma SummarySnoc(vs: seq<MonthValues>, managers: seq<string>)
    requires vs != []
    ensures SummaryOf(vs, managers) == SummaryOf(vs[..|vs| - 1], managers) + MonthRows(managers, vs[|vs| - 1])
  {
  }

  /** The rows of the j-th iteration sit in their own block of `results_summary`, one block per month in loop order. */
  lemma {:induction false} SummaryBlock(vs: seq<MonthValues>, managers: seq<string>, j: nat)
    requires j < |vs|
    ensures BlockStart(j, managers) <= BlockStart(j + 1, managers) <= |SummaryOf(vs, managers)|
    ensures SummaryOf(vs, managers)[BlockStart(j, managers)..BlockStart(j + 1, managers)] == MonthRows(managers, vs[j])
  {
    var init, last := vs[..|vs| - 1], vs[|vs| - 1];
    var pre, rows := SummaryOf(init, managers), MonthRows(managers, last);
    SummarySnoc(vs, managers);
    SummaryLength(init, managers);
    MonthRowsShape(managers, last);
    BlockStartSucc(j, managers);
    var lo, hi := BlockStart(j, managers), BlockStart(j + 1, managers);
    if j == |vs| - 1 {
      assert lo == |pre| && hi == |pre| + |rows|;
      assert (pre + rows)[lo..hi] == rows;
    } else {
      SummaryBlock(init, managers, j);
      assert init[j] == vs[j];
      assert (pre + rows)[lo..hi] == pre[lo..hi];
    }
  }

  lemma EvaluationsAt(obs: seq<Observation>, t: nat, j: nat)
    requires 2 <= t <= Calendar.MonthCount && j < t - 2
    ensures Evaluations(obs, t)[j] == Evaluate(obs, j + 2)
  {
  }

  /** The rows of loop index j + 2 fill block j of the year's `results_summary`. */
  lemma YearBlock(obs: seq<Observation>, managers: seq<string>, j: nat)
    requires j < Calendar.MonthCount - 2
    ensures BlockStart(j, managers) <= BlockStart(j + 1, managers) <= |SummaryOf(Evaluations(obs, Calendar.MonthCount), managers)|
    ensures SummaryOf(Evaluations(obs, Calendar.MonthCount), managers)[BlockStart(j, managers)..BlockStart(j + 1, managers)]
            == MonthRows(managers, Evaluate(obs, j + 2))
  {
    SummaryBlock(Evaluations(obs, Calendar.MonthCount), managers, j);
    EvaluationsAt(obs, Calendar.MonthCount, j);
  }

  /**
   * Within month t's block, row i is manager i's K1 and K2 of that month, as
   * the ratio of its grouped sums, and the row after the managers is the
   * department's (main.py:95-99).
   */
  lemma MonthRowOf(obs: seq<Observation>, managers: seq<string>, t: LoopIndex, i: nat)
    requires i <= |managers|
    ensures |MonthRows(managers, Evaluate(obs, t))| == |managers| + 1
    ensures MonthRows(managers, Evaluate(obs, t))[i] ==
            if i < |managers| then
              SummaryRow(Calendar.MonthName(t), managers[i], Get(K1Series(obs, t), managers[i]), Get(K2Series(obs, t), managers[i]))
            else
              SummaryRow(Calendar.MonthName(t), Department, Finite(DepartmentK1(obs, t)), Finite(DepartmentK2(obs, t)))
  {
    MonthRowsShape(managers, Evaluate(obs, t));
  }

  /** Twelve months (January to December 2023) of one row per manager plus the department row. */
  lemma YearSummaryLength(obs: seq<Observation>, managers: seq<string>)
    ensures |SummaryOf(Evaluations(obs, Calendar.MonthCount), managers)| == 12 * (|managers| + 1)
  {
    SummaryLength(Evaluations(obs, Calendar.MonthCount), managers);
  }
}
