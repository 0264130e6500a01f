/**
 * The wide-to-long reshape (main.py:56-58): every surviving joined row gives
 * one observation per calendar month, carrying the ordinal of its completion
 * month (missing for an unknown name) and the ordinal of the shipment month.
 * `melt` lists the observations month column by month column.
 */
module LongForm {
  import opened Wrappers
  import Calendar
  import Finance
  import Tables
  import Cells
  import StopFilter

  /** A row of `long_df`: id, completion month, AM, `end_month_num`, `shipment_month_num`, `shipment_sum`. */
  datatype Observation = Observation(
    id: string, month: string, manager: Option<string>,
    endNum: Option<nat>, shipNum: nat, amount: real)

  /**
   * The observation of project `p` for calendar month column `c`. The ensures
   * only spell out the fields for the solver; `ObservationOfKept` and
   * `MeltFromConsistent` state what an observation promises.
   */
  function ObservationOf(p: Finance.Project, c: nat): (o: Observation)
    requires c < |p.amounts|
    ensures o.id == p.id && o.month == p.month && o.manager == p.manager && o.amount == p.amounts[c]
    ensures o.endNum == Calendar.Ordinal(p.month) && o.shipNum == c + 1
  {
    Observation(p.id, p.month, p.manager, Calendar.Ordinal(p.month), c + 1, p.amounts[c])
  }

  /** The observations of one month column, one per project, in project order. */
  function Block(ps: seq<Finance.Project>, c: nat): (b: seq<Observation>)
    requires Finance.ProjectsWellFormed(ps) && c < Calendar.MonthCount
    ensures |b| == |ps|
    ensures forall j :: 0 <= j < |ps| ==> b[j] == ObservationOf(ps[j], c)
  {
    if ps == [] then [] else [ObservationOf(ps[0], c)] + Block(ps[1..], c)
  }

  /** The columns c..13 melted in calendar order. */
  function MeltFrom(ps: seq<Finance.Project>, c: nat): (obs: seq<Observation>)
    requires Finance.ProjectsWellFormed(ps) && c <= Calendar.MonthCount
    decreases Calendar.MonthCount - c
  {
    if c == Calendar.MonthCount then [] else Block(ps, c) + MeltFrom(ps, c + 1)
  }

  /** `analytics_df.melt(...)` with both ordinal columns added (main.py:56-58). */
  function Melt(ps: seq<Finance.Project>): seq<Observation>
    requires Finance.ProjectsWellFormed(ps)
  {
    MeltFrom(ps, 0)
  }

  /** Rows of the completion ordinal `e`: `long_df['end_month_num'] == e`. */
  function EndsAt(e: nat): Observation -> bool {
    (o: Observation) => o.endNum == Some(e)
  }

  /** Rows of the shipment ordinal `s`: `df['shipment_month_num'] == s`. */
  function ShippedAt(s: nat): Observation -> bool {
    (o: Observation) => o.shipNum == s
  }

  function SelectEnd(obs: seq<Observation>, e: nat): seq<Observation> {
    Tables.Filter(obs, EndsAt(e))
  }

  function SelectShip(obs: seq<Observation>, s: nat): seq<Observation> {
    Tables.Filter(obs, ShippedAt(s))
  }

  /** Projects whose completion month has ordinal `e`. */
  function CompletedIn(e: nat): Finance.Project -> bool {
    (p: Finance.Project) => Calendar.Ordinal(p.month) == Some(e)
  }

  function CompletedAt(ps: seq<Finance.Project>, e: nat): (r: seq<Finance.Project>)
    ensures Finance.ProjectsWellFormed(ps) ==> Finance.ProjectsWellFormed(r)
  {
    Tables.Filter(ps, CompletedIn(e))
  }

  lemma {:induction false} MeltFromLength(ps: seq<Finance.Project>, c: nat)
    requires Finance.ProjectsWellFormed(ps) && c <= Calendar.MonthCount
    ensures |MeltFrom(ps, c)| == (Calendar.MonthCount - c) * |ps|
    decreases Calendar.MonthCount - c
  {
    if c < Calendar.MonthCount {
      var k, n := Calendar.MonthCount - (c + 1), |ps|;
      MeltFromLength(ps, c + 1);
      assert MeltFrom(ps, c) == Block(ps, c) + MeltFrom(ps, c + 1);
      assert |MeltFrom(ps, c)| == n + k * n;
      MulSucc(k, n);
      assert k + 1 == Calendar.MonthCount - c;
    }
  }

  lemma MulSucc(a: nat, n: nat)
    ensures (a + 1) * n == a * n + n
  {
  }

  /** The reshape yields one observation per project and calendar month. */
  lemma MeltLength(ps: seq<Finance.Project>)
    requires Finance.ProjectsWellFormed(ps)
    ensures |Melt(ps)| == Calendar.MonthCount * |ps|
  {
    MeltFromLength(ps, 0);
  }

  /** A selection that looks only at a project's own fields can be made before the reshape instead of after it. */
  lemma {:induction false} FilterBlock(ps: seq<Finance.Project>, c: nat, f: Observation -> bool, g: Finance.Project -> bool)
    requires Finance.ProjectsWellFormed(ps) && c < Calendar.MonthCount
    requires forall p :: p in ps ==> f(ObservationOf(p, c)) == g(p)
    ensures Tables.Filter(Block(ps, c), f) == Block(Tables.Filter(ps, g), c)
  {
    if ps != [] {
      assert ps[0] in ps;
      assert Block(ps, c) == [ObservationOf(ps[0], c)] + Block(ps[1..], c);
      Tables.FilterConcat([ObservationOf(ps[0], c)], Block(ps[1..], c), f);
      forall p | p in ps[1..] ensures f(ObservationOf(p, c)) == g(p) {
        assert p in ps;
      }
      FilterBlock(ps[1..], c, f, g);
    }
  }

  lemma {:induction false} FilterMeltFrom(ps: seq<Finance.Project>, c: nat, f: Observation -> bool, g: Finance.Project -> bool)
    requires Finance.ProjectsWellFormed(ps) && c <= Calendar.MonthCount
    requires forall p, k :: p in ps && c <= k < Calendar.MonthCount ==> f(ObservationOf(p, k)) == g(p)
    ensures Tables.Filter(MeltFrom(ps, c), f) == MeltFrom(Tables.Filter(ps, g), c)
    decreases Calendar.MonthCount - c
  {
    if c < Calendar.MonthCount {
      Tables.FilterConcat(Block(ps, c), MeltFrom(ps, c + 1), f);
      FilterBlock(ps, c, f, g);
      FilterMeltFrom(ps, c + 1, f, g);
    }
  }

  lemma SelectShipBlock(ps: seq<Finance.Project>, c: nat, s: nat)
    requires Finance.ProjectsWellFormed(ps) && c < Calendar.MonthCount
    ensures SelectShip(Block(ps, c), s) == if s == c + 1 then Block(ps, c) else []
  {
    var b := Block(ps, c);
    forall o | o in b ensures o.shipNum == c + 1 {
      var j :| 0 <= j < |b| && b[j] == o;
    }
    if s == c + 1 {
      Tables.FilterKeepsAll(b, ShippedAt(s));
    } else {
      Tables.FilterDropsAll(b, ShippedAt(s));
    }
  }

  lemma {:induction false} SelectShipMeltFrom(ps: seq<Finance.Project>, c: nat, s: nat)
    requires Finance.ProjectsWellFormed(ps) && c <= Calendar.MonthCount
    ensures SelectShip(MeltFrom(ps, c), s) == if c < s <= Calendar.MonthCount then Block(ps, s - 1) else []
    decreases Calendar.MonthCount - c
  {
    if c < Calendar.MonthCount {
      Tables.FilterConcat(Block(ps, c), MeltFrom(ps, c + 1), ShippedAt(s));
      SelectShipBlock(ps, c, s);
      SelectShipMeltFrom(ps, c + 1, s);
    }
  }

  lemma SelectEndMeltFrom(ps: seq<Finance.Project>, c: nat, e: nat)
    requires Finance.ProjectsWellFormed(ps) && c <= Calendar.MonthCount
    ensures SelectEnd(MeltFrom(ps, c), e) == MeltFrom(CompletedAt(ps, e), c)
  {
    FilterMeltFrom(ps, c, EndsAt(e), CompletedIn(e));
  }

  /** Each project gives exactly one observation for shipment ordinal s, its column c = s - 1, in project order (main.py:56-58). */
  lemma ShipmentMonth(ps: seq<Finance.Project>, s: nat, c: nat)
    requires Finance.ProjectsWellFormed(ps) && c < Calendar.MonthCount && s == c + 1
    ensures SelectShip(Melt(ps), s) == Block(ps, c)
  {
    SelectShipMeltFrom(ps, 0, s);
  }

  /**
   * The observations completed at ordinal `e` and shipped at ordinal s are
   * exactly one per project completed at `e`, holding its amount for column
   * c = s - 1.
   */
  lemma BaseSelection(ps: seq<Finance.Project>, e: nat, s: nat, c: nat)
    requires Finance.ProjectsWellFormed(ps) && c < Calendar.MonthCount && s == c + 1
    ensures SelectShip(SelectEnd(Melt(ps), e), s) == Block(CompletedAt(ps, e), c)
  {
    SelectEndMeltFrom(ps, 0, e);
    ShipmentMonth(CompletedAt(ps, e), s, c);
  }

  /** Every melted observation carries its completion month's ordinal and a shipment ordinal of the calendar. */
  lemma {:induction false} MeltFromConsistent(ps: seq<Finance.Project>, c: nat)
    requires Finance.ProjectsWellFormed(ps) && c <= Calendar.MonthCount
    ensures forall o :: o in MeltFrom(ps, c) ==>
              o.endNum == Calendar.Ordinal(o.month) && c < o.shipNum <= Calendar.MonthCount
    decreases Calendar.MonthCount - c
  {
    if c < Calendar.MonthCount {
      MeltFromConsistent(ps, c + 1);
      var b := Block(ps, c);
      forall o | o in b ensures o.endNum == Calendar.Ordinal(o.month) && o.shipNum == c + 1 {
        var j :| 0 <= j < |b| && b[j] == o;
      }
    }
  }

  /** Every melted observation is the observation of some project for one of the columns c..13. */
  lemma {:induction false} MeltFromOrigin(ps: seq<Finance.Project>, c: nat)
    requires Finance.ProjectsWellFormed(ps) && c <= Calendar.MonthCount
    ensures forall o :: o in MeltFrom(ps, c) ==>
              exists p, k :: p in ps && c <= k < Calendar.MonthCount && o == ObservationOf(p, k)
    decreases Calendar.MonthCount - c
  {
    if c < Calendar.MonthCount {
      MeltFromOrigin(ps, c + 1);
      var b := Block(ps, c);
      forall o | o in b ensures exists p, k :: p in ps && c <= k < Calendar.MonthCount && o == ObservationOf(p, k) {
        var j :| 0 <= j < |b| && b[j] == o;
        assert ps[j] in ps;
      }
    }
  }

  /** A project whose month name is unknown contributes to no base set, whatever the ordinal asked for. */
  lemma UnknownMonthNeverInBase(ps: seq<Finance.Project>, e: nat)
    requires Finance.ProjectsWellFormed(ps)
    ensures forall o :: o in SelectEnd(Melt(ps), e) ==> o.month in Calendar.Months
  {
    MeltFromConsistent(ps, 0);
    forall o | o in SelectEnd(Melt(ps), e) ensures o.month in Calendar.Months {
      Calendar.OrdinalIsIndexPlusOne(o.month);
    }
  }

  /** The observation of month column k of a project `check_for_stop` keeps is not -1 if it lies at or before completion. */
  lemma ObservationOfKept(p: Finance.Project, k: nat)
    requires |p.amounts| == Calendar.MonthCount && StopFilter.Kept(p) && k < Calendar.MonthCount
    ensures ObservationOf(p, k).endNum.Some? && ObservationOf(p, k).shipNum <= ObservationOf(p, k).endNum.value ==>
              ObservationOf(p, k).amount != Cells.StopMarker
  {
    if Calendar.Ordinal(p.month).Some? && k < Calendar.Ordinal(p.month).value {
      StopFilter.KeptHasNoEarlyStop(p, k);
    }
  }

  /** No observation of projects `check_for_stop` keeps holds -1 at or before its completion month. */
  lemma MeltOfKeptIsStopFree(ps: seq<Finance.Project>)
    requires Finance.ProjectsWellFormed(ps)
    requires forall p :: p in ps ==> StopFilter.Kept(p)
    ensures forall o :: o in Melt(ps) && o.endNum.Some? && o.shipNum <= o.endNum.value ==> o.amount != Cells.StopMarker
  {
    MeltFromOrigin(ps, 0);
    forall o | o in Melt(ps) && o.endNum.Some? && o.shipNum <= o.endNum.value
      ensures o.amount != Cells.StopMarker
    {
      var p, k :| p in ps && 0 <= k < Calendar.MonthCount && o == ObservationOf(p, k);
      ObservationOfKept(p, k);
    }
  }
}
