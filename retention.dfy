/**
 * The month loop read back in terms of the joined projects themselves
 * (main.py:66-98): K1 is computed over the projects completed in the
 * previous month, K2 over those completed two months back that have no
 * positive shipment, under their id, in the previous month. The month with
 * ordinal n is the projects' amount column n - 1.
 */
module Retention {
  import opened Wrappers
  import Calendar
  import Finance
  import Tables
  import LongForm
  import opened Coefficients

  /** The amount column of the month with ordinal `n`; the ensures only spells out the arithmetic for the solver. */
  function Column(n: nat): (c: nat)
    requires 1 <= n
    ensures c + 1 == n
  {
    n - 1
  }

  /** The amounts of manager `m`'s projects in month column `c`. */
  function ProjectSum(ps: seq<Finance.Project>, m: string, c: nat): real
    requires Finance.ProjectsWellFormed(ps) && c < Calendar.MonthCount
  {
    if ps == [] then 0.0
    else (if ps[0].manager == Some(m) then ps[0].amounts[c] else 0.0) + ProjectSum(ps[1..], m, c)
  }

  /** The amounts of all projects that have a manager in month column `c`. */
  function ManagedProjectSum(ps: seq<Finance.Project>, c: nat): real
    requires Finance.ProjectsWellFormed(ps) && c < Calendar.MonthCount
  {
    if ps == [] then 0.0
    else (if ps[0].manager.Some? then ps[0].amounts[c] else 0.0) + ManagedProjectSum(ps[1..], c)
  }

  predicate Manages(ps: seq<Finance.Project>, m: string) {
    exists p :: p in ps && p.manager == Some(m)
  }

  /** Summing one month column of the long table is summing that column over the projects. */
  lemma {:induction false} BlockSums(ps: seq<Finance.Project>, c: nat, m: string)
    requires Finance.ProjectsWellFormed(ps) && c < Calendar.MonthCount
    ensures ManagerSum(LongForm.Block(ps, c), m) == ProjectSum(ps, m, c)
    ensures ManagedSum(LongForm.Block(ps, c)) == ManagedProjectSum(ps, c)
  {
    if ps != [] {
      var b := LongForm.Block(ps, c);
      assert b[1..] == LongForm.Block(ps[1..], c);
      BlockSums(ps[1..], c, m);
    }
  }

  /** A manager has rows in a month column of the long table exactly when it has projects. */
  lemma BlockManagers(ps: seq<Finance.Project>, c: nat, m: string)
    requires Finance.ProjectsWellFormed(ps) && c < Calendar.MonthCount
    ensures HasManager(LongForm.Block(ps, c), m) <==> Manages(ps, m)
  {
    var b := LongForm.Block(ps, c);
    if HasManager(b, m) {
      var o :| o in b && o.manager == Some(m);
      var j :| 0 <= j < |b| && b[j] == o;
      assert ps[j] in ps;
    }
    if Manages(ps, m) {
      var p :| p in ps && p.manager == Some(m);
      var j :| 0 <= j < |ps| && ps[j] == p;
      assert b[j] in b;
    }
  }

  /** What the coefficients read off a month column of the long table: per-manager sums, presence and the managed total. */
  lemma ColumnFacts(sel: seq<Observation>, ps: seq<Finance.Project>, c: nat, m: string)
    requires Finance.ProjectsWellFormed(ps) && c < Calendar.MonthCount
    requires sel == LongForm.Block(ps, c)
    ensures ManagerSum(sel, m) == ProjectSum(ps, m, c)
    ensures HasManager(sel, m) <==> Manages(ps, m)
    ensures SeriesTotal(sel) == ManagedProjectSum(ps, c)
  {
    BlockSums(ps, c, m);
    BlockManagers(ps, c, m);
    SeriesTotalIsManagedSum(sel);
  }

  // ---------------------------------------------------------------- K1

  /** The K1 projects: those completed in the previous month (main.py:73). */
  function K1Projects(ps: seq<Finance.Project>, t: LoopIndex): (r: seq<Finance.Project>)
    ensures Finance.ProjectsWellFormed(ps) ==> Finance.ProjectsWellFormed(r)
  {
    LongForm.CompletedAt(ps, PrevMonthNum(t))
  }

  /** The rows completed at ordinal `e` and shipped at ordinal `s`, read over the projects completed at `e`. */
  lemma SelectionFacts(ps: seq<Finance.Project>, e: nat, s: nat, m: string)
    requires Finance.ProjectsWellFormed(ps) && 1 <= s <= Calendar.MonthCount
    ensures ManagerSum(LongForm.SelectShip(LongForm.SelectEnd(LongForm.Melt(ps), e), s), m) == ProjectSum(LongForm.CompletedAt(ps, e), m, Column(s))
    ensures HasManager(LongForm.SelectShip(LongForm.SelectEnd(LongForm.Melt(ps), e), s), m) <==> Manages(LongForm.CompletedAt(ps, e), m)
    ensures SeriesTotal(LongForm.SelectShip(LongForm.SelectEnd(LongForm.Melt(ps), e), s)) == ManagedProjectSum(LongForm.CompletedAt(ps, e), Column(s))
  {
    LongForm.BaseSelection(ps, e, s, Column(s));
    ColumnFacts(LongForm.SelectShip(LongForm.SelectEnd(LongForm.Melt(ps), e), s), LongForm.CompletedAt(ps, e), Column(s), m);
  }

  /** The K1 base rows are the previous month's column of the K1 projects (main.py:75). */
  lemma K1BaseFacts(ps: seq<Finance.Project>, t: LoopIndex, m: string)
    requires Finance.ProjectsWellFormed(ps)
    ensures ManagerSum(BaseK1(LongForm.Melt(ps), t), m) == ProjectSum(K1Projects(ps, t), m, Column(PrevMonthNum(t)))
    ensures HasManager(BaseK1(LongForm.Melt(ps), t), m) <==> Manages(K1Projects(ps, t), m)
    ensures SeriesTotal(BaseK1(LongForm.Melt(ps), t)) == ManagedProjectSum(K1Projects(ps, t), Column(PrevMonthNum(t)))
  {
    SelectionFacts(ps, PrevMonthNum(t), PrevMonthNum(t), m);
  }

  /** The K1 prolongation rows are the current month's column of the K1 projects (main.py:77). */
  lemma K1ProlFacts(ps: seq<Finance.Project>, t: LoopIndex, m: string)
    requires Finance.ProjectsWellFormed(ps)
    ensures ManagerSum(ProlK1(LongForm.Melt(ps), t), m) == ProjectSum(K1Projects(ps, t), m, Column(CurrentMonthNum(t)))
    ensures HasManager(ProlK1(LongForm.Melt(ps), t), m) <==> Manages(K1Projects(ps, t), m)
    ensures SeriesTotal(ProlK1(LongForm.Melt(ps), t)) == ManagedProjectSum(K1Projects(ps, t), Column(CurrentMonthNum(t)))
  {
    SelectionFacts(ps, PrevMonthNum(t), CurrentMonthNum(t), m);
  }

  /**
   * A manager's K1 over the projects: its current-month shipments over its
   * previous-month shipments, summed over its K1 projects, and 0 when it has
   * none (main.py:73-79).
   */
  lemma K1FromProjects(ps: seq<Finance.Project>, t: LoopIndex, m: string)
    requires Finance.ProjectsWellFormed(ps)
    ensures Get(K1Series(LongForm.Melt(ps), t), m) ==
            if Manages(K1Projects(ps, t), m)
            then SeriesRatio(ProjectSum(K1Projects(ps, t), m, Column(CurrentMonthNum(t))),
                             ProjectSum(K1Projects(ps, t), m, Column(PrevMonthNum(t))))
            else Finite(0.0)
  {
    K1OfManager(LongForm.Melt(ps), t, m);
    K1BaseFacts(ps, t, m);
    K1ProlFacts(ps, t, m);
  }

  /** The department K1 over the K1 projects with a manager (main.py:97). */
  lemma DepartmentK1FromProjects(ps: seq<Finance.Project>, t: LoopIndex)
    requires Finance.ProjectsWellFormed(ps)
    ensures DepartmentK1(LongForm.Melt(ps), t) ==
            GuardedRatio(ManagedProjectSum(K1Projects(ps, t), Column(CurrentMonthNum(t))),
                         ManagedProjectSum(K1Projects(ps, t), Column(PrevMonthNum(t))))
  {
    K1BaseFacts(ps, t, "");
    K1ProlFacts(ps, t, "");
  }

  // ---------------------------------------------------------------- K2

  /** Some project of `ps` with id `id` has a positive amount in month column `c`. */
  predicate ProlongedIn(ps: seq<Finance.Project>, c: nat, id: string) {
    exists q :: q in ps && q.id == id && c < |q.amounts| && q.amounts[c] > 0.0
  }

  function NotProlonged(ps: seq<Finance.Project>, c: nat): Finance.Project -> bool {
    (p: Finance.Project) => !ProlongedIn(ps, c, p.id)
  }

  /** The projects completed two months back (main.py:82). */
  function K2Candidates(ps: seq<Finance.Project>, t: LoopIndex): (r: seq<Finance.Project>)
    ensures Finance.ProjectsWellFormed(ps) ==> Finance.ProjectsWellFormed(r)
  {
    LongForm.CompletedAt(ps, Prev2MonthNum(t))
  }

  /**
   * The K2 projects: the candidates whose id has no positive shipment in the
   * previous month among the candidates (main.py:84-85).
   */
  function K2Projects(ps: seq<Finance.Project>, t: LoopIndex): (r: seq<Finance.Project>)
    ensures Finance.ProjectsWellFormed(ps) ==> Finance.ProjectsWellFormed(r)
  {
    Tables.Filter(K2Candidates(ps, t), NotProlonged(K2Candidates(ps, t), Column(PrevMonthNum(t))))
  }

  /** The ids of the positive rows of a month column of the long table are the ids of the projects positive in that month. */
  lemma PositiveIdsOfBlock(d: seq<Finance.Project>, c: nat, x: string)
    requires Finance.ProjectsWellFormed(d) && c < Calendar.MonthCount
    ensures (exists o :: o in Tables.Filter(LongForm.Block(d, c), PositiveAmount) && o.id == x) <==> ProlongedIn(d, c, x)
  {
    var b := LongForm.Block(d, c);
    var pos := Tables.Filter(b, PositiveAmount);
    if o :| o in pos && o.id == x {
      var j :| 0 <= j < |b| && b[j] == o;
      assert d[j] in d && d[j].amounts[c] > 0.0;
    }
    if ProlongedIn(d, c, x) {
      var q :| q in d && q.id == x && c < |q.amounts| && q.amounts[c] > 0.0;
      var j :| 0 <= j < |d| && d[j] == q;
      assert b[j] in b && PositiveAmount(b[j]);
    }
  }

  /** The ids excluded at main.py:84-85 are those of the projects with a positive amount in the previous month. */
  lemma ProlongedIdsOfProjects(d: seq<Finance.Project>, t: LoopIndex, x: string)
    requires Finance.ProjectsWellFormed(d)
    ensures x in ProlongedIds(LongForm.Melt(d), t) <==> ProlongedIn(d, Column(PrevMonthNum(t)), x)
  {
    LongForm.ShipmentMonth(d, PrevMonthNum(t), Column(PrevMonthNum(t)));
    PositiveIdsOfBlock(d, Column(PrevMonthNum(t)), x);
  }

  /** Dropping the prolonged ids from the long table is dropping the prolonged projects before the reshape. */
  lemma ExclusionBeforeMelt(d: seq<Finance.Project>, t: LoopIndex)
    requires Finance.ProjectsWellFormed(d)
    ensures Tables.Filter(LongForm.Melt(d), NotAmong(ProlongedIds(LongForm.Melt(d), t))) ==
            LongForm.Melt(Tables.Filter(d, NotProlonged(d, Column(PrevMonthNum(t)))))
  {
    var ids := ProlongedIds(LongForm.Melt(d), t);
    var g := NotProlonged(d, Column(PrevMonthNum(t)));
    forall p, k | p in d && 0 <= k < Calendar.MonthCount
      ensures NotAmong(ids)(LongForm.ObservationOf(p, k)) == g(p)
    {
      ProlongedIdsOfProjects(d, t, p.id);
    }
    LongForm.FilterMeltFrom(d, 0, NotAmong(ids), g);
  }

  lemma K2SetOfBase(obs: seq<Observation>, d: seq<Finance.Project>, t: LoopIndex)
    requires Finance.ProjectsWellFormed(d)
    requires LongForm.SelectEnd(obs, Prev2MonthNum(t)) == LongForm.Melt(d)
    ensures K2Set(obs, t) == Tables.Filter(LongForm.Melt(d), NotAmong(ProlongedIds(LongForm.Melt(d), t)))
  {
  }

  /** `base_k2_filtered_df` is the reshape of the K2 projects (main.py:82-85). */
  lemma K2SetOfProjects(ps: seq<Finance.Project>, t: LoopIndex)
    requires Finance.ProjectsWellFormed(ps)
    ensures K2Set(LongForm.Melt(ps), t) == LongForm.Melt(K2Projects(ps, t))
  {
    LongForm.SelectEndMeltFrom(ps, 0, Prev2MonthNum(t));
    K2SetOfBase(LongForm.Melt(ps), K2Candidates(ps, t), t);
    ExclusionBeforeMelt(K2Candidates(ps, t), t);
  }

  /** A shipment selection on a reshaped table is a month column of its projects. */
  lemma ShipmentOfMelted(obs: seq<Observation>, k: seq<Finance.Project>, s: nat)
    requires Finance.ProjectsWellFormed(k) && 1 <= s <= Calendar.MonthCount
    requires obs == LongForm.Melt(k)
    ensures LongForm.SelectShip(obs, s) == LongForm.Block(k, Column(s))
  {
    LongForm.ShipmentMonth(k, s, Column(s));
  }

  /** The K2 base rows are the column two months back of the K2 projects (main.py:87). */
  lemma K2BaseFacts(ps: seq<Finance.Project>, t: LoopIndex, m: string)
    requires Finance.ProjectsWellFormed(ps)
    ensures ManagerSum(BaseK2(LongForm.Melt(ps), t), m) == ProjectSum(K2Projects(ps, t), m, Column(Prev2MonthNum(t)))
    ensures HasManager(BaseK2(LongForm.Melt(ps), t), m) <==> Manages(K2Projects(ps, t), m)
    ensures SeriesTotal(BaseK2(LongForm.Melt(ps), t)) == ManagedProjectSum(K2Projects(ps, t), Column(Prev2MonthNum(t)))
  {
    K2SetOfProjects(ps, t);
    ShipmentOfMelted(K2Set(LongForm.Melt(ps), t), K2Projects(ps, t), Prev2MonthNum(t));
    ColumnFacts(BaseK2(LongForm.Melt(ps), t), K2Projects(ps, t), Column(Prev2MonthNum(t)), m);
  }

  /** The K2 prolongation rows are the current month's column of the K2 projects (main.py:89). */
  lemma K2ProlFacts(ps: seq<Finance.Project>, t: LoopIndex, m: string)
    requires Finance.ProjectsWellFormed(ps)
    ensures ManagerSum(ProlK2(LongForm.Melt(ps), t), m) == ProjectSum(K2Projects(ps, t), m, Column(CurrentMonthNum(t)))
    ensures HasManager(ProlK2(LongForm.Melt(ps), t), m) <==> Manages(K2Projects(ps, t), m)
    ensures SeriesTotal(ProlK2(LongForm.Melt(ps), t)) == ManagedProjectSum(K2Projects(ps, t), Column(CurrentMonthNum(t)))
  {
    K2SetOfProjects(ps, t);
    ShipmentOfMelted(K2Set(LongForm.Melt(ps), t), K2Projects(ps, t), CurrentMonthNum(t));
    ColumnFacts(ProlK2(LongForm.Melt(ps), t), K2Projects(ps, t), Column(CurrentMonthNum(t)), m);
  }

  /**
   * A manager's K2 over the projects: its current-month shipments over its
   * shipments two months back, summed over its K2 projects, and 0 when it has
   * none (main.py:82-91).
   */
  lemma K2FromProjects(ps: seq<Finance.Project>, t: LoopIndex, m: string)
    requires Finance.ProjectsWellFormed(ps)
    ensures Get(K2Series(LongForm.Melt(ps), t), m) ==
            if Manages(K2Projects(ps, t), m)
            then SeriesRatio(ProjectSum(K2Projects(ps, t), m, Column(CurrentMonthNum(t))),
                             ProjectSum(K2Projects(ps, t), m, Column(Prev2MonthNum(t))))
            else Finite(0.0)
  {
    K2OfManager(LongForm.Melt(ps), t, m);
    K2BaseFacts(ps, t, m);
    K2ProlFacts(ps, t, m);
  }

  /** The department K2 over the K2 projects with a manager (main.py:98). */
  lemma DepartmentK2FromProjects(ps: seq<Finance.Project>, t: LoopIndex)
    requires Finance.ProjectsWellFormed(ps)
    ensures DepartmentK2(LongForm.Melt(ps), t) ==
            GuardedRatio(ManagedProjectSum(K2Projects(ps, t), Column(CurrentMonthNum(t))),
                         ManagedProjectSum(K2Projects(ps, t), Column(Prev2MonthNum(t))))
  {
    K2BaseFacts(ps, t, "");
    K2ProlFacts(ps, t, "");
  }

  /** No two distinct projects share an id. */
  predicate UniqueIds(ps: seq<Finance.Project>) {
    forall p, q :: p in ps && q in ps && p.id == q.id ==> p == q
  }

  /** The project shipped nothing positive in month column `c`. */
  function ShippedNothing(c: nat): Finance.Project -> bool {
    (p: Finance.Project) => c < |p.amounts| && p.amounts[c] <= 0.0
  }

  /**
   * With unique ids the exclusion by id is the exclusion of the project
   * itself: the K2 projects are the candidates with no positive amount in the
   * previous month.
   */
  lemma K2ProjectsOfUniqueIds(ps: seq<Finance.Project>, t: LoopIndex)
    requires Finance.ProjectsWellFormed(ps) && UniqueIds(ps)
    ensures K2Projects(ps, t) == Tables.Filter(K2Candidates(ps, t), ShippedNothing(Column(PrevMonthNum(t))))
  {
    var d := K2Candidates(ps, t);
    var c := Column(PrevMonthNum(t));
    forall p | p in d ensures NotProlonged(d, c)(p) == ShippedNothing(c)(p) {
      if ProlongedIn(d, c, p.id) {
        var q :| q in d && q.id == p.id && c < |q.amounts| && q.amounts[c] > 0.0;
        assert q == p;
      }
    }
    Tables.FilterAgree(d, NotProlonged(d, c), ShippedNothing(c));
  }

  /**
   * Two candidates under one id are excluded together: a positive shipment
   * of either in the previous month removes both from K2.
   */
  lemma SharedIdExcludesBoth(ps: seq<Finance.Project>, t: LoopIndex, p: Finance.Project, q: Finance.Project)
    requires Finance.ProjectsWellFormed(ps)
    requires p in K2Candidates(ps, t) && q in K2Candidates(ps, t) && p.id == q.id
    requires q.amounts[Column(PrevMonthNum(t))] > 0.0
    ensures p !in K2Projects(ps, t)
  {
  }
}
