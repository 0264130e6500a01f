/**
 * The quantities of one iteration of the month loop (main.py:66-115) for the
 * loop index t (2..13): K1 looks at projects completed at ordinal t and
 * compares their shipments at ordinals t and t + 1; K2 looks at projects
 * completed at ordinal t - 1, drops those with a positive shipment at t, and
 * compares shipments at t - 1 and t + 1. Sums are taken per manager with
 * `groupby('AM')`, which drops rows whose AM is null.
 */
module Coefficients {
  import opened Wrappers
  import Text
  import Calendar
  import Tables
  import LongForm

  type Observation = LongForm.Observation

  /** The loop index `M_idx` of `range(2, len(month_columns))` (main.py:66). */
  type LoopIndex = t: nat | 2 <= t < Calendar.MonthCount witness 2

  /**
   * `current_month_num` (main.py:67): the ordinal of the month being reported.
   * This and the next two ensures only spell out the arithmetic for the
   * solver; `LoopMonthOrdinals` states what the numbers mean.
   */
  function CurrentMonthNum(t: LoopIndex): (n: nat)
    ensures n == t + 1 && n <= Calendar.MonthCount
  {
    t + 1
  }

  /** `prev_month_num` (main.py:68). */
  function PrevMonthNum(t: LoopIndex): (n: nat)
    ensures n == t && 2 <= n
  {
    t
  }

  /** `prev_2_month_num` (main.py:69). */
  function Prev2MonthNum(t: LoopIndex): (n: nat)
    ensures n + 1 == t && 1 <= n
  {
    t - 1
  }

  /**
   * The three month numbers of iteration t are `month_to_num` of the names
   * `month_columns[t]`, `month_columns[t - 1]` and `month_columns[t - 2]`:
   * the reported month, the month before it and the month two back.
   */
  lemma LoopMonthOrdinals(t: LoopIndex)
    ensures Calendar.Ordinal(Calendar.MonthName(t)) == Some(CurrentMonthNum(t))
    ensures Calendar.Ordinal(Calendar.MonthName(t - 1)) == Some(PrevMonthNum(t))
    ensures Calendar.Ordinal(Calendar.MonthName(t - 2)) == Some(Prev2MonthNum(t))
  {
    Calendar.MonthCountIsLength();
    Calendar.MonthPosition(t);
    Calendar.MonthPosition(t - 1);
    Calendar.MonthPosition(t - 2);
  }

  // ---------------------------------------------------------------- division

  /**
   * A per-manager coefficient after `fillna(0)`: float division gives NaN for
   * 0/0, which is filled with 0, and ±infinity for x/0, which `fillna` keeps.
   */
  datatype Coefficient = Finite(value: real) | PosInf | NegInf

  /** `(prolonged / base).fillna(0)` for one manager present on both sides. */
  function SeriesRatio(num: real, den: real): (k: Coefficient)
    ensures den != 0.0 ==> k.Finite? && k.value * den == num
    ensures den == 0.0 ==> (k.Finite? <==> num == 0.0)
    ensures den == 0.0 && k.Finite? ==> k.value == 0.0
    ensures k == PosInf <==> den == 0.0 && num > 0.0
    ensures k == NegInf <==> den == 0.0 && num < 0.0
  {
    if den != 0.0 then Finite(num / den)
    else if num > 0.0 then PosInf
    else if num < 0.0 then NegInf
    else Finite(0.0)
  }

  /** `num / den if den > 0 else 0` (main.py:97-98, 142, 146). */
  function GuardedRatio(num: real, den: real): (r: real)
    ensures den > 0.0 ==> r * den == num
    ensures den <= 0.0 ==> r == 0.0
  {
    if den > 0.0 then num / den else 0.0
  }

  // ---------------------------------------------------------------- groupby('AM')

  /** The sum of the amounts of manager `m`'s rows. */
  function ManagerSum(obs: seq<Observation>, m: string): real {
    if obs == [] then 0.0
    else (if obs[0].manager == Some(m) then obs[0].amount else 0.0) + ManagerSum(obs[1..], m)
  }

  predicate HasManager(obs: seq<Observation>, m: string) {
    exists o :: o in obs && o.manager == Some(m)
  }

  /** The sum of the amounts of all rows that have a manager. */
  function ManagedSum(obs: seq<Observation>): real {
    if obs == [] then 0.0
    else (if obs[0].manager.Some? then obs[0].amount else 0.0) + ManagedSum(obs[1..])
  }

  /** The non-null AM values, in row order, with repeats. */
  function Managers(obs: seq<Observation>): (r: seq<string>)
    ensures forall m :: m in r <==> HasManager(obs, m)
  {
    if obs == [] then []
    else
      assert forall o :: o in obs <==> o == obs[0] || o in obs[1..];
      (if obs[0].manager.Some? then [obs[0].manager.value] else []) + Managers(obs[1..])
  }

  /** The index of the grouped Series: distinct non-null managers, sorted. */
  function GroupKeys(obs: seq<Observation>): (keys: seq<string>)
    ensures Text.StrictlySorted(keys)
    ensures forall m :: m in keys <==> HasManager(obs, m)
  {
    Text.SortDistinct(Managers(obs))
  }

  /** `obs.groupby('AM')['shipment_sum'].sum()` as a dictionary from manager to sum. */
  function GroupSum(obs: seq<Observation>): (g: map<string, real>)
    ensures forall m :: m in g <==> HasManager(obs, m)
    ensures forall m :: m in g ==> g[m] == ManagerSum(obs, m)
  {
    map m | m in GroupKeys(obs) :: ManagerSum(obs, m)
  }

  /** The sum of the group sums over `keys`. */
  function KeySum(obs: seq<Observation>, keys: seq<string>): real {
    if keys == [] then 0.0 else ManagerSum(obs, keys[0]) + KeySum(obs, keys[1..])
  }

  /** `obs.groupby('AM')['shipment_sum'].sum().sum()`: the total of the grouped Series. */
  function SeriesTotal(obs: seq<Observation>): real {
    KeySum(obs, GroupKeys(obs))
  }

  /** `(num / den).fillna(0)`: both Series are aligned on the union of their indexes; a side that lacks a key gives NaN, filled with 0. */
  function Divide(num: map<string, real>, den: map<string, real>): (k: map<string, Coefficient>)
    ensures k.Keys == num.Keys + den.Keys
  {
    map m | m in num.Keys + den.Keys :: if m in num && m in den then SeriesRatio(num[m], den[m]) else Finite(0.0)
  }

  /** `k.get(manager, 0)` (main.py:96). */
  function Get(k: map<string, Coefficient>, m: string): Coefficient {
    if m in k then k[m] else Finite(0.0)
  }

  predicate DistinctKeys(keys: seq<string>) {
    forall i, j :: 0 <= i < j < |keys| ==> keys[i] != keys[j]
  }

  lemma SortedKeysDistinct(keys: seq<string>)
    requires Text.StrictlySorted(keys)
    ensures DistinctKeys(keys)
  {
    forall i, j | 0 <= i < j < |keys| ensures keys[i] != keys[j] {
      Text.LessIrreflexive(keys[i]);
    }
  }

  /** The coefficient a manager receives: the ratio of its group sums when it has rows on both sides, 0 otherwise. */
  lemma DivideGet(num: seq<Observation>, den: seq<Observation>, m: string)
    ensures Get(Divide(GroupSum(num), GroupSum(den)), m) ==
            if HasManager(num, m) && HasManager(den, m) then SeriesRatio(ManagerSum(num, m), ManagerSum(den, m))
            else Finite(0.0)
  {
  }

  lemma {:induction false} KeySumOfEmpty(keys: seq<string>)
    ensures KeySum([], keys) == 0.0
  {
    if keys != [] {
      KeySumOfEmpty(keys[1..]);
    }
  }

  lemma ManagerSumCons(o: Observation, rest: seq<Observation>, m: string)
    ensures ManagerSum([o] + rest, m) == (if o.manager == Some(m) then o.amount else 0.0) + ManagerSum(rest, m)
  {
    assert ([o] + rest)[1..] == rest;
  }

  /** Adding one row to a table adds its amount to the sum over distinct keys exactly when its manager is one of them. */
  lemma {:induction false} KeySumCons(o: Observation, rest: seq<Observation>, keys: seq<string>)
    requires DistinctKeys(keys)
    ensures KeySum([o] + rest, keys) ==
            KeySum(rest, keys) + (if o.manager.Some? && o.manager.value in keys then o.amount else 0.0)
  {
    if keys != [] {
      ManagerSumCons(o, rest, keys[0]);
      assert DistinctKeys(keys[1..]) by {
        forall i, j | 0 <= i < j < |keys[1..]| ensures keys[1..][i] != keys[1..][j] {
          assert keys[1..][i] == keys[i + 1] && keys[1..][j] == keys[j + 1];
        }
      }
      KeySumCons(o, rest, keys[1..]);
      assert keys[0] !in keys[1..] by {
        forall j | 0 <= j < |keys[1..]| ensures keys[1..][j] != keys[0] {
          assert keys[1..][j] == keys[j + 1];
        }
      }
      assert keys == [keys[0]] + keys[1..];
    }
  }

  /** Summing the per-manager sums over distinct keys that cover every manager gives the total of all managed rows. */
  lemma {:induction false} KeySumCovers(obs: seq<Observation>, keys: seq<string>)
    requires DistinctKeys(keys)
    requires forall o :: o in obs && o.manager.Some? ==> o.manager.value in keys
    ensures KeySum(obs, keys) == ManagedSum(obs)
  {
    if obs == [] {
      KeySumOfEmpty(keys);
    } else {
      assert obs == [obs[0]] + obs[1..];
      assert obs[0] in obs;
      KeySumCons(obs[0], obs[1..], keys);
      KeySumCovers(obs[1..], keys);
    }
  }

  /** The total of the grouped Series is the sum over the rows that have a manager: null-AM rows are left out. */
  lemma SeriesTotalIsManagedSum(obs: seq<Observation>)
    ensures SeriesTotal(obs) == ManagedSum(obs)
  {
    SortedKeysDistinct(GroupKeys(obs));
    forall o | o in obs && o.manager.Some? ensures o.manager.value in GroupKeys(obs) {
      assert HasManager(obs, o.manager.value);
    }
    KeySumCovers(obs, GroupKeys(obs));
  }

  // ---------------------------------------------------------------- one month

  /** `long_df[long_df['end_month_num'] == t]`, the projects completed in the previous month (main.py:73). */
  function K1Set(obs: seq<Observation>, t: LoopIndex): seq<Observation> {
    LongForm.SelectEnd(obs, PrevMonthNum(t))
  }

  function BaseK1(obs: seq<Observation>, t: LoopIndex): seq<Observation> {
    LongForm.SelectShip(K1Set(obs, t), PrevMonthNum(t))
  }

  function ProlK1(obs: seq<Observation>, t: LoopIndex): seq<Observation> {
    LongForm.SelectShip(K1Set(obs, t), CurrentMonthNum(t))
  }

  predicate PositiveAmount(o: Observation) {
    o.amount > 0.0
  }

  function IdsOf(obs: seq<Observation>): (ids: seq<string>)
    ensures forall x :: x in ids <==> exists o :: o in obs && o.id == x
  {
    if obs == [] then []
    else
      assert forall o :: o in obs <==> o == obs[0] || o in obs[1..];
      [obs[0].id] + IdsOf(obs[1..])
  }

  /** `prolonged_in_M1_ids` (main.py:84): ids of K2 base rows with a positive shipment in the previous month. */
  function ProlongedIds(base: seq<Observation>, t: LoopIndex): seq<string> {
    IdsOf(Tables.Filter(LongForm.SelectShip(base, PrevMonthNum(t)), PositiveAmount))
  }

  function NotAmong(ids: seq<string>): Observation -> bool {
    (o: Observation) => o.id !in ids
  }

  /** `base_k2_filtered_df` (main.py:82-85). */
  function K2Set(obs: seq<Observation>, t: LoopIndex): seq<Observation> {
    Tables.Filter(LongForm.SelectEnd(obs, Prev2MonthNum(t)), NotAmong(ProlongedIds(LongForm.SelectEnd(obs, Prev2MonthNum(t)), t)))
  }

  function BaseK2(obs: seq<Observation>, t: LoopIndex): seq<Observation> {
    LongForm.SelectShip(K2Set(obs, t), Prev2MonthNum(t))
  }

  function ProlK2(obs: seq<Observation>, t: LoopIndex): seq<Observation> {
    LongForm.SelectShip(K2Set(obs, t), CurrentMonthNum(t))
  }

  /** `k1` (main.py:79). */
  function K1Series(obs: seq<Observation>, t: LoopIndex): map<string, Coefficient> {
    Divide(GroupSum(ProlK1(obs, t)), GroupSum(BaseK1(obs, t)))
  }

  /** `k2` (main.py:91). */
  function K2Series(obs: seq<Observation>, t: LoopIndex): map<string, Coefficient> {
    Divide(GroupSum(ProlK2(obs, t)), GroupSum(BaseK2(obs, t)))
  }

  /** `total_k1` (main.py:97). */
  function DepartmentK1(obs: seq<Observation>, t: LoopIndex): real {
    GuardedRatio(SeriesTotal(ProlK1(obs, t)), SeriesTotal(BaseK1(obs, t)))
  }

  /** `total_k2` (main.py:98). */
  function DepartmentK2(obs: seq<Observation>, t: LoopIndex): real {
    GuardedRatio(SeriesTotal(ProlK2(obs, t)), SeriesTotal(BaseK2(obs, t)))
  }

  /**
   * A manager's K1: the ratio of its shipments at t + 1 to those at t over its
   * projects completed at t, and 0 when it has no such project.
   */
  lemma K1OfManager(obs: seq<Observation>, t: LoopIndex, m: string)
    ensures Get(K1Series(obs, t), m) ==
            if HasManager(ProlK1(obs, t), m) && HasManager(BaseK1(obs, t), m)
            then SeriesRatio(ManagerSum(ProlK1(obs, t), m), ManagerSum(BaseK1(obs, t), m))
            else Finite(0.0)
  {
    DivideGet(ProlK1(obs, t), BaseK1(obs, t), m);
  }

  /** A manager's K2, by the same rule over the K2 set. */
  lemma K2OfManager(obs: seq<Observation>, t: LoopIndex, m: string)
    ensures Get(K2Series(obs, t), m) ==
            if HasManager(ProlK2(obs, t), m) && HasManager(BaseK2(obs, t), m)
            then SeriesRatio(ManagerSum(ProlK2(obs, t), m), ManagerSum(BaseK2(obs, t), m))
            else Finite(0.0)
  {
    DivideGet(ProlK2(obs, t), BaseK2(obs, t), m);
  }

  /** A manager without base rows gets 0 for K1 and for K2. */
  lemma NoBaseIsZero(obs: seq<Observation>, t: LoopIndex, m: string)
    ensures !HasManager(BaseK1(obs, t), m) ==> Get(K1Series(obs, t), m) == Finite(0.0)
    ensures !HasManager(BaseK2(obs, t), m) ==> Get(K2Series(obs, t), m) == Finite(0.0)
  {
    K1OfManager(obs, t, m);
    K2OfManager(obs, t, m);
  }

  /** A zero base is 0 only when the prolongation is zero too; a positive prolongation over a zero base gives +infinity. */
  lemma ZeroBase(obs: seq<Observation>, t: LoopIndex, m: string)
    requires HasManager(BaseK1(obs, t), m) && HasManager(ProlK1(obs, t), m)
    requires ManagerSum(BaseK1(obs, t), m) == 0.0
    ensures Get(K1Series(obs, t), m) == Finite(0.0) <==> ManagerSum(ProlK1(obs, t), m) == 0.0
    ensures Get(K1Series(obs, t), m) == PosInf <==> ManagerSum(ProlK1(obs, t), m) > 0.0
  {
    K1OfManager(obs, t, m);
  }

  /** The department values are the guarded ratios of the totals over rows with a manager (main.py:97-98). */
  lemma DepartmentIsRatioOfTotals(obs: seq<Observation>, t: LoopIndex)
    ensures DepartmentK1(obs, t) == GuardedRatio(ManagedSum(ProlK1(obs, t)), ManagedSum(BaseK1(obs, t)))
    ensures DepartmentK2(obs, t) == GuardedRatio(ManagedSum(ProlK2(obs, t)), ManagedSum(BaseK2(obs, t)))
  {
    SeriesTotalIsManagedSum(ProlK1(obs, t));
    SeriesTotalIsManagedSum(BaseK1(obs, t));
    SeriesTotalIsManagedSum(ProlK2(obs, t));
    SeriesTotalIsManagedSum(BaseK2(obs, t));
  }

  /**
   * A row of the K2 set is a row completed at t - 1 whose project has no
   * positive shipment at t (main.py:84-85).
   */
  lemma K2Exclusion(obs: seq<Observation>, t: LoopIndex, o: Observation)
    ensures o in K2Set(obs, t) <==>
            o in LongForm.SelectEnd(obs, Prev2MonthNum(t)) &&
            !exists q :: q in LongForm.SelectEnd(obs, Prev2MonthNum(t)) && q.id == o.id && q.shipNum == PrevMonthNum(t) && q.amount > 0.0
  {
    var base := LongForm.SelectEnd(obs, Prev2MonthNum(t));
    var ids := ProlongedIds(base, t);
    var pos := Tables.Filter(LongForm.SelectShip(base, t), PositiveAmount);
    assert forall q :: q in pos <==> q in base && q.shipNum == t && q.amount > 0.0;
    assert o.id in ids <==> exists q :: q in pos && q.id == o.id;
  }

  /** The weighted sum `Σ base_m * K_m` over `keys`. */
  function WeightedSum(num: seq<Observation>, den: seq<Observation>, keys: seq<string>): real
    requires forall m :: m in keys ==> ManagerSum(den, m) != 0.0
  {
    if keys == [] then 0.0
    else ManagerSum(den, keys[0]) * SeriesRatio(ManagerSum(num, keys[0]), ManagerSum(den, keys[0])).value
         + WeightedSum(num, den, keys[1..])
  }

  lemma {:induction false} WeightedSumIsKeySum(num: seq<Observation>, den: seq<Observation>, keys: seq<string>)
    requires forall m :: m in keys ==> ManagerSum(den, m) != 0.0
    ensures WeightedSum(num, den, keys) == KeySum(num, keys)
  {
    if keys != [] {
      assert keys[0] in keys;
      WeightedSumIsKeySum(num, den, keys[1..]);
    }
  }

  /**
   * The department ratio is the mean of the managers' coefficients weighted by
   * their bases, not their plain mean: with every base non-zero and the same
   * managers on both sides, Σprolonged = Σ base_m * K_m.
   */
  lemma DepartmentIsBaseWeighted(num: seq<Observation>, den: seq<Observation>)
    requires forall m :: HasManager(num, m) <==> HasManager(den, m)
    requires forall m :: HasManager(den, m) ==> ManagerSum(den, m) != 0.0
    ensures SeriesTotal(num) == WeightedSum(num, den, GroupKeys(den))
  {
    Text.SortedUnique(GroupKeys(num), GroupKeys(den));
    WeightedSumIsKeySum(num, den, GroupKeys(den));
  }

  function Obs(m: string, amount: real): Observation {
    LongForm.Observation("p-" + m, "Январь 2023", Some(m), Some(3), 3, amount)
  }

  /**
   * Two managers with bases 100 and 1 and prolongations 50 and 1: the
   * department value is 51/101, while the managers' coefficients 0.5 and 1
   * have the plain mean 0.75.
   */
  lemma WeightedIsNotMean()
    ensures var den := [Obs("A", 100.0), Obs("B", 1.0)];
            var num := [Obs("A", 50.0), Obs("B", 1.0)];
            GuardedRatio(SeriesTotal(num), SeriesTotal(den)) == 51.0 / 101.0 &&
            SeriesRatio(ManagerSum(num, "A"), ManagerSum(den, "A")) == Finite(0.5) &&
            SeriesRatio(ManagerSum(num, "B"), ManagerSum(den, "B")) == Finite(1.0) &&
            51.0 / 101.0 != (0.5 + 1.0) / 2.0
  {
    var den := [Obs("A", 100.0), Obs("B", 1.0)];
    var num := [Obs("A", 50.0), Obs("B", 1.0)];
    SeriesTotalIsManagedSum(den);
    SeriesTotalIsManagedSum(num);
    assert den[1..] == [Obs("B", 1.0)] && num[1..] == [Obs("B", 1.0)];
    assert ManagedSum(den) == 101.0 && ManagedSum(num) == 51.0;
    assert "A" != "B";
    assert ManagerSum(den, "A") == 100.0 && ManagerSum(num, "A") == 50.0;
    assert ManagerSum(den, "B") == 1.0 && ManagerSum(num, "B") == 1.0;
  }
}
