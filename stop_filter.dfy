/**
 * The stop filter (main.py:43-52): a project is dropped from the analysis
 * when one of the calendar months up to and including its completion month
 * holds the stop marker -1. A project whose completion month is not a
 * calendar name is kept, because `list.index` raises ValueError and
 * `check_for_stop` answers False.
 */
module StopFilter {
  import opened Wrappers
  import Calendar
  import Cells
  import Finance
  import Tables

  /** Some month at index 0..e holds the stop marker. */
  predicate StopUpTo(amounts: seq<real>, e: nat) {
    exists i :: 0 <= i <= e && i < |amounts| && amounts[i] == Cells.StopMarker
  }

  /** Whether `check_for_stop` (main.py:43-49) answers True for the joined row `p`. */
  predicate IsStopped(p: Finance.Project) {
    match Calendar.IndexOf(p.month)
    case None => false
    case Some(e) => StopUpTo(p.amounts, e)
  }

  /** The negated `to_exclude` mask (main.py:52). */
  predicate Kept(p: Finance.Project) {
    !IsStopped(p)
  }

  /** `analytics_df`: the joined rows whose mask is False, in their order. */
  function Survivors(ps: seq<Finance.Project>): (r: seq<Finance.Project>)
    ensures forall p :: p in r <==> p in ps && !IsStopped(p)
  {
    Tables.Filter(ps, Kept)
  }

  /** The loop of `check_for_stop` (main.py:46-47): months 0..e in order, returning at the first stop marker. */
  method ScanForStop(amounts: seq<real>, e: nat) returns (stop: bool)
    requires e < |amounts|
    ensures stop == StopUpTo(amounts, e)
  {
    var i := 0;
    while i < e + 1
      invariant 0 <= i <= e + 1
      invariant forall k :: 0 <= k < i ==> amounts[k] != Cells.StopMarker
    {
      if amounts[i] == Cells.StopMarker {
        return true;
      }
      i := i + 1;
    }
    return false;
  }

  /** `check_for_stop` (main.py:43-49): an unknown month name raises ValueError, which answers False. */
  method CheckForStop(p: Finance.Project) returns (stop: bool)
    requires |p.amounts| == Calendar.MonthCount
    ensures stop == IsStopped(p)
  {
    var idx := Calendar.IndexOf(p.month);
    if idx.None? {
      return false;
    }
    stop := ScanForStop(p.amounts, idx.value);
  }

  /** The `to_exclude` column (main.py:51): `check_for_stop` applied to each joined row in turn. */
  method StopMask(ps: seq<Finance.Project>) returns (toExclude: seq<bool>)
    requires Finance.ProjectsWellFormed(ps)
    ensures |toExclude| == |ps|
    ensures forall k :: 0 <= k < |ps| ==> toExclude[k] == IsStopped(ps[k])
  {
    toExclude := [];
    var j := 0;
    while j < |ps|
      invariant 0 <= j <= |ps| && |toExclude| == j
      invariant forall k :: 0 <= k < j ==> toExclude[k] == IsStopped(ps[k])
    {
      assert ps[j] in ps;
      var stop := CheckForStop(ps[j]);
      assert forall k :: 0 <= k < j ==> (toExclude + [stop])[k] == toExclude[k];
      toExclude := toExclude + [stop];
      j := j + 1;
    }
  }

  /** main.py:51-52: the rows the `to_exclude` column marks are dropped. */
  method ExcludeStopped(ps: seq<Finance.Project>) returns (analytics: seq<Finance.Project>)
    requires Finance.ProjectsWellFormed(ps)
    ensures analytics == Survivors(ps)
  {
    var toExclude := StopMask(ps);
    analytics := Tables.DropMasked(ps, toExclude, Kept);
  }

  /** For a project completed in calendar month i, exactly the months 0..i are scanned for the stop marker. */
  lemma StopWindow(p: Finance.Project, i: nat)
    requires |p.amounts| == Calendar.MonthCount && i < Calendar.MonthCount
    requires p.month == Calendar.Months[i]
    ensures IsStopped(p) <==> exists k :: 0 <= k <= i && p.amounts[k] == Cells.StopMarker
  {
    Calendar.MonthPosition(i);
  }

  /** A stop marker strictly after the completion month does not exclude the project. */
  lemma LateStopIsKept(p: Finance.Project, i: nat)
    requires |p.amounts| == Calendar.MonthCount && i < Calendar.MonthCount
    requires p.month == Calendar.Months[i]
    requires forall k :: 0 <= k <= i ==> p.amounts[k] != Cells.StopMarker
    ensures Kept(p)
  {
    StopWindow(p, i);
  }

  /** A kept project holds no stop marker in any month up to and including its completion month. */
  lemma KeptHasNoEarlyStop(p: Finance.Project, k: nat)
    requires |p.amounts| == Calendar.MonthCount && Kept(p)
    requires Calendar.Ordinal(p.month).Some? && k < Calendar.Ordinal(p.month).value
    ensures p.amounts[k] != Cells.StopMarker
  {
    Calendar.OrdinalIsIndexPlusOne(p.month);
  }

  /**
   * A project whose completion month is not a calendar name survives the
   * filter, whatever its amounts, but has no completion ordinal (main.py:57).
   */
  lemma UnknownMonthIsKept(p: Finance.Project)
    requires p.month !in Calendar.Months
    ensures Kept(p)
    ensures Calendar.Ordinal(p.month) == None
  {
    Calendar.OrdinalIsIndexPlusOne(p.month);
  }
}
