/**
 * The fixed month axis of the report: fourteen month names, November 2022
 * to December 2023 (main.py:20-24), their positions (`month_columns.index`,
 * main.py:45) and their 1-based ordinals (`month_to_num`, main.py:42).
 */
module Calendar {
  import opened Wrappers
  import Text

  const Months: seq<string> := [
    "Ноябрь 2022", "Декабрь 2022", "Январь 2023", "Февраль 2023", "Март 2023", "Апрель 2023",
    "Май 2023", "Июнь 2023", "Июль 2023", "Август 2023", "Сентябрь 2023", "Октябрь 2023",
    "Ноябрь 2023", "Декабрь 2023"
  ]

  const MonthCount: nat := 14

  lemma MonthCountIsLength()
    ensures |Months| == MonthCount
  {
  }

  /** `month_columns[i]`. */
  function MonthName(i: nat): string
    requires i < MonthCount
  {
    MonthCountIsLength();
    Months[i]
  }

  /** Three characters that tell the calendar's names apart. */
  function Signature(m: string): (char, char, char)
    requires |m| >= 3
  {
    (m[1], m[2], m[|m| - 1])
  }

  /** No month name occurs twice in the calendar. */
  lemma MonthsDistinct()
    ensures forall i, j :: 0 <= i < j < |Months| ==> Months[i] != Months[j]
  {
    var sigs := seq(|Months|, i requires 0 <= i < |Months| => Signature(Months[i]));
    assert sigs == [
      ('о', 'я', '2'), ('е', 'к', '2'), ('н', 'в', '3'), ('е', 'в', '3'), ('а', 'р', '3'), ('п', 'р', '3'),
      ('а', 'й', '3'), ('ю', 'н', '3'), ('ю', 'л', '3'), ('в', 'г', '3'), ('е', 'н', '3'), ('к', 'т', '3'),
      ('о', 'я', '3'), ('е', 'к', '3')];
    forall i, j | 0 <= i < j < |Months| ensures Months[i] != Months[j] {
      assert sigs[i] != sigs[j];
    }
  }

  /** Position of the first occurrence of `name` in `s`, as Python's `list.index`, or None where it raises ValueError. */
  function IndexIn(s: seq<string>, name: string): (r: Option<nat>)
    ensures r.Some? ==> r.value < |s| && s[r.value] == name
    ensures r.Some? ==> forall j :: 0 <= j < r.value ==> s[j] != name
    ensures r.None? <==> name !in s
  {
    if s == [] then None
    else if s[0] == name then Some(0)
    else match IndexIn(s[1..], name)
      case Some(k) => Some(k + 1)
      case None => None
  }

  /** `month_columns.index(name)` (main.py:45). */
  function IndexOf(name: string): Option<nat> {
    IndexIn(Months, name)
  }

  /** `month_to_num`, the dictionary from month name to 1-based ordinal (main.py:42). */
  const MonthToNum: map<string, nat> := NumberFrom(Months)

  /** `{name: i + 1 for i, name in enumerate(s)}`. */
  function NumberFrom(s: seq<string>): map<string, nat>
    requires forall a, b :: 0 <= a < b < |s| ==> s[a] != s[b]
  {
    map i | 0 <= i < |s| :: s[i] := i + 1
  }

  lemma NumberFromAt(s: seq<string>, i: nat)
    requires i < |s|
    requires forall a, b :: 0 <= a < b < |s| ==> s[a] != s[b]
    ensures s[i] in NumberFrom(s) && NumberFrom(s)[s[i]] == i + 1
  {
    var m := NumberFrom(s);
    assert s[i] in m;
    var k :| 0 <= k < |s| && s[k] == s[i] && m[s[i]] == k + 1;
    assert k == i;
  }

  lemma NumberFromKeys(s: seq<string>, name: string)
    requires forall a, b :: 0 <= a < b < |s| ==> s[a] != s[b]
    ensures name in NumberFrom(s) <==> name in s
  {
  }

  /** `long_df['month'].map(month_to_num)` (main.py:57-58): None stands for the NaN of an unknown name. */
  function Ordinal(name: string): Option<nat> {
    if name in MonthToNum then Some(MonthToNum[name]) else None
  }

  lemma IndexInDistinct(s: seq<string>, i: nat)
    requires i < |s|
    requires forall a, b :: 0 <= a < b < |s| ==> s[a] != s[b]
    ensures IndexIn(s, s[i]) == Some(i)
  {
    var r := IndexIn(s, s[i]);
    assert r.Some?;
  }

  /** Every calendar month is found at its own position and carries ordinal position + 1. */
  lemma MonthPosition(i: nat)
    requires i < |Months|
    ensures IndexOf(Months[i]) == Some(i)
    ensures Ordinal(Months[i]) == Some(i + 1)
  {
    MonthsDistinct();
    IndexInDistinct(Months, i);
    NumberFromAt(Months, i);
  }

  /** The dictionary of ordinals and the list index agree on every name, known or not. */
  lemma OrdinalIsIndexPlusOne(name: string)
    ensures Ordinal(name).Some? <==> IndexOf(name).Some?
    ensures IndexOf(name).Some? ==> Ordinal(name) == Some(IndexOf(name).value + 1)
    ensures Ordinal(name).Some? ==> 1 <= Ordinal(name).value <= |Months|
  {
    if name in Months {
      var i := IndexOf(name).value;
      MonthPosition(i);
    } else {
      MonthsDistinct();
      NumberFromKeys(Months, name);
    }
  }

  /** The calendar's names are already in the form `str.capitalize` produces (main.py:18), in any case they are typed. */
  lemma MonthsAreCapitalized(i: nat)
    requires i < |Months|
    ensures Text.Capitalize(Months[i]) == Months[i]
    ensures Text.Capitalize(Text.LowerAll(Months[i])) == Months[i]
    ensures Text.Capitalize(Text.UpperAll(Months[i])) == Months[i]
  {
    var m := Months[i];
    MonthIsCapitalForm(i);
    Text.CapitalizedIsFixed(m);
    Text.CapitalizeIgnoresCase(m);
  }

  lemma MonthIsCapitalForm(i: nat)
    requires i < |Months|
    ensures Months[i] != [] && Text.ToUpper(Months[i][0]) == Months[i][0]
    ensures forall j :: 1 <= j < |Months[i]| ==> Text.ToLower(Months[i][j]) == Months[i][j]
  {
  }
}
