/**
 * Cleaning of one monetary cell (main.py:29-33): the text loses all its
 * whitespace, a decimal comma becomes a point, the stop words become the
 * marker -1, and whatever then fails to parse as a number becomes 0.
 */
module Cells {
  import opened Wrappers
  import Text

  /** The value the script writes for a contract that was stopped or ended ('стоп', 'end'). */
  const StopMarker: real := -1.0

  /** `str.replace(',', '.')`. */
  function CommaToPoint(s: string): (r: string)
    ensures |r| == |s|
    ensures forall i :: 0 <= i < |s| ==> r[i] == (if s[i] == ',' then '.' else s[i])
  {
    if s == [] then [] else [if s[0] == ',' then '.' else s[0]] + CommaToPoint(s[1..])
  }

  /** The text that is looked up and parsed: whitespace removed, then commas replaced (main.py:30-31). */
  function Clean(cell: string): string {
    CommaToPoint(Text.RemoveSpaces(cell))
  }

  predicate IsDigit(c: char) {
    '0' <= c <= '9'
  }

  predicate AllDigits(s: string) {
    forall i :: 0 <= i < |s| ==> IsDigit(s[i])
  }

  function DigitValue(c: char): nat
    requires IsDigit(c)
  {
    (c as int - '0' as int) as nat
  }

  /** The value of a string of decimal digits, read left to right. */
  function DigitsValue(s: string): nat
    requires AllDigits(s)
  {
    if s == [] then 0 else 10 * DigitsValue(s[..|s| - 1]) + DigitValue(s[|s| - 1])
  }

  function Pow10(n: nat): (p: nat)
    ensures p >= 1
  {
    if n == 0 then 1 else 10 * Pow10(n - 1)
  }

  /** Position of the first '.' in `s`, or |s| when there is none. */
  function PointAt(s: string): (k: nat)
    ensures k <= |s|
    ensures forall i :: 0 <= i < k ==> s[i] != '.'
    ensures k < |s| ==> s[k] == '.'
  {
    if s == [] || s[0] == '.' then 0 else 1 + PointAt(s[1..])
  }

  /** The value of the decimal `whole.fraction`. */
  function DecimalValue(whole: string, fraction: string): real
    requires AllDigits(whole) && AllDigits(fraction)
  {
    DigitsValue(whole) as real + DigitsValue(fraction) as real / Pow10(|fraction|) as real
  }

  /** Digits with at most one decimal point and at least one digit: "12", "12.5", "12.", ".5". */
  function ParseUnsigned(t: string): Option<real> {
    var k := PointAt(t);
    var whole := t[..k];
    var fraction := if k < |t| then t[k + 1..] else [];
    if AllDigits(whole) && AllDigits(fraction) && |whole| + |fraction| > 0 then
      Some(DecimalValue(whole, fraction))
    else
      None
  }

  /** The numbers `pd.to_numeric` reads in this model: an optional sign and an unsigned decimal. */
  function ParseNumber(t: string): Option<real> {
    if t != [] && (t[0] == '-' || t[0] == '+') then
      match ParseUnsigned(t[1..])
      case Some(v) => Some(if t[0] == '-' then -v else v)
      case None => None
    else
      ParseUnsigned(t)
  }

  /**
   * One cleaned cell (main.py:29-33). The entry 'в ноль' of the replacement
   * table maps to NaN, which `fillna(0)` turns into 0; the text it is compared
   * with has lost its whitespace already, so it never matches (NaughtEntryIsDead).
   */
  function Normalize(cell: string): real {
    var t := Clean(cell);
    if t == "в ноль" then 0.0
    else if t == "стоп" || t == "end" then StopMarker
    else match ParseNumber(t)
      case Some(v) => v
      case None => 0.0
  }

  // ---------------------------------------------------------------- lemmas

  lemma CleanHasNoSpaces(cell: string)
    ensures Text.NoSpaces(Clean(cell))
  {
    var r := Text.RemoveSpaces(cell);
    var t := CommaToPoint(r);
    forall i | 0 <= i < |t| ensures !Text.IsSpace(t[i]) {
      assert t[i] == r[i] || t[i] == '.';
    }
  }

  /** The 'в ноль' entry of the replacement table can never fire: no cleaned text contains a space. */
  lemma NaughtEntryIsDead(cell: string)
    ensures Clean(cell) != "в ноль"
  {
    CleanHasNoSpaces(cell);
    var t := Clean(cell);
    if t == "в ноль" {
      assert Text.IsSpace(t[1]);
    }
  }

  /** Whitespace inserted anywhere in a cell, including inside a number, does not change its value. */
  lemma NormalizeIgnoresSpaces(a: string, w: string, b: string)
    requires Text.AllSpaces(w)
    ensures Normalize(a + w + b) == Normalize(a + b)
  {
    Text.RemoveSpacesIgnoresInsertion(a, w, b);
  }

  /** Padding of whitespace around a text without whitespace or commas is all that cleaning removes. */
  lemma CleanPadded(a: string, w: string, b: string)
    requires Text.AllSpaces(a) && Text.AllSpaces(b) && Text.NoSpaces(w) && ',' !in w
    ensures Clean(a + w + b) == w
  {
    Text.RemoveSpacesConcat(a + w, b);
    Text.RemoveSpacesConcat(a, w);
    Text.RemoveSpacesOfSpaces(a);
    Text.RemoveSpacesOfSpaces(b);
    Text.RemoveSpacesKeeps(w);
    assert [] + w + [] == w;
    assert CommaToPoint(w) == w;
  }

  lemma StopEntry(cell: string)
    requires Clean(cell) == "стоп" || Clean(cell) == "end"
    ensures Normalize(cell) == StopMarker
  {
    assert |Clean(cell)| != |"в ноль"|;
  }

  /** 'стоп' and 'end' become the stop marker, whatever whitespace surrounds them. */
  lemma StopWordsAreMarkers(a: string, b: string)
    requires Text.AllSpaces(a) && Text.AllSpaces(b)
    ensures Normalize(a + "стоп" + b) == StopMarker
    ensures Normalize(a + "end" + b) == StopMarker
  {
    assert Text.NoSpaces("стоп") && ',' !in "стоп";
    CleanPadded(a, "стоп", b);
    StopEntry(a + "стоп" + b);
    assert Text.NoSpaces("end") && ',' !in "end";
    CleanPadded(a, "end", b);
    StopEntry(a + "end" + b);
  }

  /** Text that starts with a character no number starts with does not parse. */
  lemma NoNumberStart(t: string)
    requires t != [] && !IsDigit(t[0]) && t[0] !in "-+."
    ensures ParseNumber(t).None?
  {
    var k := PointAt(t);
    assert k > 0;
    assert t[..k][0] == t[0];
  }

  /** The phrase 'в ноль' reads 'вноль' once its space is gone, which is no number: it becomes 0. */
  lemma NaughtPhraseIsZero()
    ensures Normalize("в ноль") == 0.0
  {
    NaughtPhraseCleans();
    NoNumberStart("вноль");
    assert |"вноль"| == 5;
  }

  lemma NaughtPhraseCleans()
    ensures Clean("в ноль") == "вноль"
  {
    NaughtPhraseLosesSpace();
    assert CommaToPoint("вноль") == "вноль";
  }

  lemma NaughtPhraseLosesSpace()
    ensures Text.RemoveSpaces("в ноль") == "вноль"
  {
    assert "в ноль"[1..] == " ноль" && " ноль"[1..] == "ноль";
    assert Text.NoSpaces("ноль");
    Text.RemoveSpacesKeeps("ноль");
    assert ['в'] + "ноль" == "вноль";
  }

  /** Text that is not a number becomes 0, not an error. */
  lemma UnparsableIsZero(cell: string)
    requires Clean(cell) != "стоп" && Clean(cell) != "end"
    requires ParseNumber(Clean(cell)).None?
    ensures Normalize(cell) == 0.0
  {
  }

  /** Decimal digits of `n`, most significant first. */
  function NatToDigits(n: nat): (s: string)
    ensures AllDigits(s) && s != []
  {
    if n < 10 then [('0' as int + n) as char] else NatToDigits(n / 10) + [('0' as int + n % 10) as char]
  }

  lemma {:induction false} NatToDigitsValue(n: nat)
    ensures DigitsValue(NatToDigits(n)) == n
  {
    var s := NatToDigits(n);
    if n >= 10 {
      assert s[..|s| - 1] == NatToDigits(n / 10);
      NatToDigitsValue(n / 10);
    }
  }

  lemma DigitsHaveNoPoint(s: string)
    requires AllDigits(s)
    ensures PointAt(s) == |s|
  {
    forall i | 0 <= i < |s| ensures s[i] != '.' {
      assert IsDigit(s[i]);
    }
  }

  lemma DigitsAreClean(s: string)
    requires AllDigits(s)
    ensures Clean(s) == s
  {
    assert Text.NoSpaces(s) by {
      forall i | 0 <= i < |s| ensures !Text.IsSpace(s[i]) {
        assert IsDigit(s[i]);
      }
    }
    Text.RemoveSpacesKeeps(s);
    assert CommaToPoint(s) == s;
  }

  /** How Normalize reads a cell whose cleaned text is a number that is no table entry. */
  lemma NormalizeNumber(cell: string, v: real)
    requires Clean(cell) !in {"в ноль", "стоп", "end"}
    requires ParseNumber(Clean(cell)) == Some(v)
    ensures Normalize(cell) == v
  {
  }

  lemma DigitsAreNoEntry(s: string)
    requires s != [] && IsDigit(s[0])
    ensures s !in {"в ноль", "стоп", "end"}
    ensures s[0] != '-' && s[0] != '+'
  {
  }

  lemma DecimalWithoutFraction(w: string)
    requires AllDigits(w)
    ensures DecimalValue(w, []) == DigitsValue(w) as real
  {
    var f: string := [];
    assert DigitsValue(f) == 0 && Pow10(|f|) == 1;
  }

  lemma ParseDigits(s: string)
    requires AllDigits(s) && s != []
    ensures ParseUnsigned(s) == Some(DigitsValue(s) as real)
  {
    DigitsHaveNoPoint(s);
    var k := PointAt(s);
    assert s[..k] == s;
    DecimalWithoutFraction(s);
  }

  /** A whole number written in digits normalises to itself. */
  lemma NormalizeNat(n: nat)
    ensures Normalize(NatToDigits(n)) == n as real
  {
    var s := NatToDigits(n);
    DigitsAreClean(s);
    NatToDigitsValue(n);
    assert IsDigit(s[0]);
    DigitsAreNoEntry(s);
    ParseDigits(s);
    NormalizeNumber(s, n as real);
  }

  /** A minus sign in front of the digits negates the value; so "-1" is itself the stop marker. */
  lemma NormalizeNegative(n: nat)
    ensures Normalize("-" + NatToDigits(n)) == -(n as real)
  {
    var s := NatToDigits(n);
    var t := "-" + s;
    DigitsAreClean(s);
    assert Text.NoSpaces(t) by {
      forall i | 0 <= i < |t| ensures !Text.IsSpace(t[i]) {
        if i > 0 { assert t[i] == s[i - 1] && IsDigit(s[i - 1]); }
      }
    }
    Text.RemoveSpacesKeeps(t);
    assert CommaToPoint(t) == t;
    NatToDigitsValue(n);
    ParseDigits(s);
    assert t[1..] == s;
    assert ParseNumber(t) == Some(-(n as real));
    assert t !in {"в ноль", "стоп", "end"} by { assert t[0] == '-'; }
    NormalizeNumber(t, -(n as real));
  }

  lemma CleanDecimalComma(w: string, f: string)
    requires AllDigits(w) && AllDigits(f)
    ensures Clean(w + "," + f) == w + "." + f
  {
    var c := w + "," + f;
    var t := w + "." + f;
    assert Text.NoSpaces(c) by {
      forall i | 0 <= i < |c| ensures !Text.IsSpace(c[i]) {
        if i < |w| { assert c[i] == w[i] && IsDigit(w[i]); }
        else if i > |w| { assert c[i] == f[i - |w| - 1] && IsDigit(f[i - |w| - 1]); }
      }
    }
    Text.RemoveSpacesKeeps(c);
    forall i | 0 <= i < |c| ensures CommaToPoint(c)[i] == t[i] {
      if i < |w| { assert c[i] == w[i] && IsDigit(w[i]); }
      else if i > |w| { assert c[i] == f[i - |w| - 1] && IsDigit(f[i - |w| - 1]); }
    }
  }

  /** A decimal comma is read as a decimal point: "12,5" is twelve and a half. */
  lemma CommaIsDecimalPoint(n: nat, f: string)
    requires AllDigits(f)
    ensures Normalize(NatToDigits(n) + "," + f) == DecimalValue(NatToDigits(n), f)
    ensures DigitsValue(NatToDigits(n)) == n
  {
    var w := NatToDigits(n);
    var t := w + "." + f;
    CleanDecimalComma(w, f);
    ParseDecimal(w, f);
    assert t[0] == w[0] && IsDigit(w[0]);
    DigitsAreNoEntry(t);
    NormalizeNumber(w + "," + f, DecimalValue(w, f));
    NatToDigitsValue(n);
  }

  lemma PointAfterDigits(w: string, f: string)
    requires AllDigits(w)
    ensures PointAt(w + "." + f) == |w|
  {
    var t := w + "." + f;
    assert t[|w|] == '.';
    forall i | 0 <= i < |w| ensures t[i] != '.' {
      assert t[i] == w[i] && IsDigit(w[i]);
    }
  }

  lemma ParseDecimal(w: string, f: string)
    requires AllDigits(w) && w != [] && AllDigits(f)
    ensures ParseNumber(w + "." + f) == Some(DecimalValue(w, f))
  {
    var t := w + "." + f;
    PointAfterDigits(w, f);
    assert t[..|w|] == w;
    assert t[|w| + 1..] == f;
    assert ParseUnsigned(t) == Some(DecimalValue(w, f));
    assert t[0] == w[0] && IsDigit(w[0]);
  }
}
