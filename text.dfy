/**
 * The string operations the script relies on: Python's notion of whitespace
 * (`str.isspace`, which is also what `\s` matches in a `str` pattern),
 * `re.sub(r'\s', '')`, `str.strip()`, `str.capitalize()` and the code-point
 * order that `sorted()` uses on strings.
 */
module Text {

  /** Python's `str.isspace`: the characters with bidirectional class WS, B or S. */
  predicate IsSpace(c: char) {
    var n := c as int;
    (0x09 <= n <= 0x0D) || (0x1C <= n <= 0x20) || n == 0x85 || n == 0xA0 || n == 0x1680
    || (0x2000 <= n <= 0x200A) || n == 0x2028 || n == 0x2029 || n == 0x202F || n == 0x205F || n == 0x3000
  }

  predicate NoSpaces(s: string) {
    forall i :: 0 <= i < |s| ==> !IsSpace(s[i])
  }

  predicate AllSpaces(s: string) {
    forall i :: 0 <= i < |s| ==> IsSpace(s[i])
  }

  /** `re.sub(r'\s', '', s)`: every whitespace character removed, the rest kept in order. */
  function RemoveSpaces(s: string): (r: string)
    ensures |r| <= |s|
    ensures NoSpaces(r)
    ensures forall c :: c in r ==> c in s
  {
    if s == [] then []
    else if IsSpace(s[0]) then RemoveSpaces(s[1..])
    else [s[0]] + RemoveSpaces(s[1..])
  }

  lemma {:induction false} RemoveSpacesConcat(a: string, b: string)
    ensures RemoveSpaces(a + b) == RemoveSpaces(a) + RemoveSpaces(b)
  {
    if a == [] {
      assert a + b == b;
    } else {
      assert (a + b)[1..] == a[1..] + b;
      RemoveSpacesConcat(a[1..], b);
    }
  }

  lemma {:induction false} RemoveSpacesOfSpaces(s: string)
    requires AllSpaces(s)
    ensures RemoveSpaces(s) == []
  {
    if s != [] {
      RemoveSpacesOfSpaces(s[1..]);
    }
  }

  lemma {:induction false} RemoveSpacesKeeps(s: string)
    requires NoSpaces(s)
    ensures RemoveSpaces(s) == s
  {
    if s != [] {
      RemoveSpacesKeeps(s[1..]);
    }
  }

  /** Whitespace inserted anywhere in a cell disappears again. */
  lemma RemoveSpacesIgnoresInsertion(a: string, w: string, b: string)
    requires AllSpaces(w)
    ensures RemoveSpaces(a + w + b) == RemoveSpaces(a + b)
  {
    RemoveSpacesConcat(a + w, b);
    RemoveSpacesConcat(a, w);
    RemoveSpacesConcat(a, b);
    RemoveSpacesOfSpaces(w);
  }

  /** Number of whitespace characters at the front of `s`. */
  function LeadingSpaces(s: string): (k: nat)
    ensures k <= |s|
    ensures forall i :: 0 <= i < k ==> IsSpace(s[i])
    ensures k < |s| ==> !IsSpace(s[k])
  {
    if s == [] || !IsSpace(s[0]) then 0 else 1 + LeadingSpaces(s[1..])
  }

  /** Number of whitespace characters at the back of `s`. */
  function TrailingSpaces(s: string): (k: nat)
    ensures k <= |s|
    ensures forall i :: |s| - k <= i < |s| ==> IsSpace(s[i])
    ensures k < |s| ==> !IsSpace(s[|s| - 1 - k])
  {
    if s == [] || !IsSpace(s[|s| - 1]) then 0 else 1 + TrailingSpaces(s[..|s| - 1])
  }

  /** `str.strip()` without arguments. */
  function Strip(s: string): (r: string)
    ensures r == [] || (!IsSpace(r[0]) && !IsSpace(r[|r| - 1]))
  {
    var t := s[LeadingSpaces(s)..];
    t[..|t| - TrailingSpaces(t)]
  }

  lemma {:induction false} LeadingSpacesAfterPad(a: string, u: string)
    requires AllSpaces(a)
    ensures LeadingSpaces(a + u) == |a| + LeadingSpaces(u)
  {
    if a != [] {
      assert (a + u)[0] == a[0];
      assert (a + u)[1..] == a[1..] + u;
      LeadingSpacesAfterPad(a[1..], u);
    } else {
      assert a + u == u;
    }
  }

  lemma {:induction false} TrailingSpacesBeforePad(u: string, b: string)
    requires AllSpaces(b)
    ensures TrailingSpaces(u + b) == TrailingSpaces(u) + |b|
  {
    if b != [] {
      assert (u + b)[|u + b| - 1] == b[|b| - 1];
      assert (u + b)[..|u + b| - 1] == u + b[..|b| - 1];
      TrailingSpacesBeforePad(u, b[..|b| - 1]);
    } else {
      assert u + b == u;
    }
  }

  lemma StripAfter(s: string, k: nat, u: string)
    requires LeadingSpaces(s) == k && s[k..] == u
    ensures Strip(s) == u[..|u| - TrailingSpaces(u)]
  {
  }

  lemma StripOfSpaces(a: string, b: string)
    requires AllSpaces(a) && AllSpaces(b)
    ensures Strip(a + b) == []
  {
    var s := a + b;
    LeadingSpacesAfterPad(a, b);
    LeadingSpacesAfterPad(b, []);
    assert b + [] == b;
    StripAfter(s, |s|, []);
  }

  lemma StripAroundValue(a: string, t: string, b: string)
    requires AllSpaces(a) && AllSpaces(b)
    requires t != [] && !IsSpace(t[0]) && !IsSpace(t[|t| - 1])
    ensures Strip(a + (t + b)) == t
  {
    var u := t + b;
    LeadingSpacesAfterPad(a, u);
    assert LeadingSpaces(u) == 0 by { assert u[0] == t[0]; }
    assert (a + u)[|a|..] == u;
    TrailingSpacesBeforePad(t, b);
    assert TrailingSpaces(u) == |b|;
    StripAfter(a + u, |a|, u);
    assert u[..|u| - |b|] == t;
  }

  /** Strip removes exactly the whitespace padding around a value that has none at its ends. */
  lemma StripPadded(a: string, t: string, b: string)
    requires AllSpaces(a) && AllSpaces(b)
    requires t == [] || (!IsSpace(t[0]) && !IsSpace(t[|t| - 1]))
    ensures Strip(a + t + b) == t
  {
    if t == [] {
      assert a + t + b == a + b;
      StripOfSpaces(a, b);
    } else {
      assert a + t + b == a + (t + b);
      StripAroundValue(a, t, b);
    }
  }

  lemma StripIdempotent(s: string)
    ensures Strip(Strip(s)) == Strip(s)
  {
    var t := Strip(s);
    StripPadded([], t, []);
    assert [] + t + [] == t;
  }

  // ---------------------------------------------------------------- case

  /** Upper-case partner of a letter: ASCII and the basic Cyrillic block; other characters are unchanged. */
  function ToUpper(c: char): char {
    var n := c as int;
    if 'a' <= c <= 'z' then (n - 32) as char
    else if 0x0430 <= n <= 0x044F then (n - 32) as char
    else if 0x0450 <= n <= 0x045F then (n - 80) as char
    else c
  }

  /** Lower-case partner of a letter: ASCII and the basic Cyrillic block; other characters are unchanged. */
  function ToLower(c: char): char {
    var n := c as int;
    if 'A' <= c <= 'Z' then (n + 32) as char
    else if 0x0410 <= n <= 0x042F then (n + 32) as char
    else if 0x0400 <= n <= 0x040F then (n + 80) as char
    else c
  }

  function LowerAll(s: string): (r: string)
    ensures |r| == |s|
    ensures forall i :: 0 <= i < |s| ==> r[i] == ToLower(s[i])
  {
    if s == [] then [] else [ToLower(s[0])] + LowerAll(s[1..])
  }

  function UpperAll(s: string): (r: string)
    ensures |r| == |s|
    ensures forall i :: 0 <= i < |s| ==> r[i] == ToUpper(s[i])
  {
    if s == [] then [] else [ToUpper(s[0])] + UpperAll(s[1..])
  }

  /** `str.capitalize()`: first character upper-cased, the rest lower-cased. */
  function Capitalize(s: string): (r: string)
    ensures |r| == |s|
  {
    if s == [] then [] else [ToUpper(s[0])] + LowerAll(s[1..])
  }

  lemma CaseFolds(c: char)
    ensures ToUpper(ToUpper(c)) == ToUpper(c) && ToLower(ToLower(c)) == ToLower(c)
    ensures ToUpper(ToLower(c)) == ToUpper(c) && ToLower(ToUpper(c)) == ToLower(c)
  {
  }

  /** Capitalizing twice is capitalizing once. */
  lemma CapitalizeIdempotent(s: string)
    ensures Capitalize(Capitalize(s)) == Capitalize(s)
  {
    if s != [] {
      var r := Capitalize(s);
      CaseFolds(s[0]);
      assert r[1..] == LowerAll(s[1..]);
      forall i | 0 <= i < |r| - 1
        ensures LowerAll(r[1..])[i] == r[1..][i]
      {
        CaseFolds(s[1..][i]);
      }
      assert LowerAll(r[1..]) == r[1..];
    }
  }

  /** A text whose first character is upper case and whose other characters are lower case is its own capitalisation. */
  lemma CapitalizedIsFixed(s: string)
    requires s != [] && ToUpper(s[0]) == s[0]
    requires forall j :: 1 <= j < |s| ==> ToLower(s[j]) == s[j]
    ensures Capitalize(s) == s
  {
    assert LowerAll(s[1..]) == s[1..];
  }

  /** Capitalize ignores the case of its argument: a name typed in lower or upper case matches the same calendar entry. */
  lemma CapitalizeIgnoresCase(s: string)
    ensures Capitalize(LowerAll(s)) == Capitalize(s)
    ensures Capitalize(UpperAll(s)) == Capitalize(s)
  {
    if s != [] {
      CaseFolds(s[0]);
      var l, u := LowerAll(s), UpperAll(s);
      assert l[1..] == LowerAll(s[1..]) && u[1..] == UpperAll(s[1..]);
      forall i | 0 <= i < |s| - 1
        ensures LowerAll(l[1..])[i] == LowerAll(s[1..])[i]
        ensures LowerAll(u[1..])[i] == LowerAll(s[1..])[i]
      {
        CaseFolds(s[1..][i]);
      }
      assert LowerAll(l[1..]) == LowerAll(s[1..]);
      assert LowerAll(u[1..]) == LowerAll(s[1..]);
    }
  }

  // ---------------------------------------------------------------- order

  /** Python's `<` on `str`: lexicographic by code point, a proper prefix first. */
  predicate Less(a: string, b: string)
    decreases |a|
  {
    if a == [] then b != []
    else if b == [] then false
    else if a[0] != b[0] then a[0] < b[0]
    else Less(a[1..], b[1..])
  }

  lemma {:induction false} LessIrreflexive(a: string)
    ensures !Less(a, a)
  {
    if a != [] {
      LessIrreflexive(a[1..]);
    }
  }

  lemma {:induction false} LessTransitive(a: string, b: string, c: string)
    requires Less(a, b) && Less(b, c)
    ensures Less(a, c)
  {
    if a != [] && b != [] && c != [] && a[0] == b[0] == c[0] {
      LessTransitive(a[1..], b[1..], c[1..]);
    }
  }

  lemma {:induction false} LessTotal(a: string, b: string)
    requires a != b
    ensures Less(a, b) || Less(b, a)
  {
    if a != [] && b != [] && a[0] == b[0] {
      assert a == [a[0]] + a[1..] && b == [b[0]] + b[1..];
      LessTotal(a[1..], b[1..]);
    }
  }

  lemma {:induction false} LessAsymmetric(a: string, b: string)
    requires Less(a, b)
    ensures !Less(b, a)
  {
    if a != [] && b != [] && a[0] == b[0] {
      LessAsymmetric(a[1..], b[1..]);
    }
  }

  predicate StrictlySorted(s: seq<string>) {
    forall i, j :: 0 <= i < j < |s| ==> Less(s[i], s[j])
  }

  /** Insert `x` into a strictly sorted sequence unless it is already there. */
  function Insert(x: string, s: seq<string>): (r: seq<string>)
    requires StrictlySorted(s)
    ensures StrictlySorted(r)
    ensures forall y :: y in r <==> y == x || y in s
  {
    if s == [] then [x]
    else if x == s[0] then s
    else if Less(x, s[0]) then
      assert forall j :: 0 < j < |s| ==> Less(x, s[j]) by {
        forall j | 0 < j < |s| ensures Less(x, s[j]) { LessTransitive(x, s[0], s[j]); }
      }
      [x] + s
    else
      LessTotal(x, s[0]);
      var t := Insert(x, s[1..]);
      assert forall y :: y in t ==> Less(s[0], y);
      [s[0]] + t
  }

  /** `sorted()` applied to a collection of strings, with duplicates collapsed. */
  function SortDistinct(s: seq<string>): (r: seq<string>)
    ensures StrictlySorted(r)
    ensures forall y :: y in r <==> y in s
  {
    if s == [] then [] else Insert(s[0], SortDistinct(s[1..]))
  }

  lemma SameElementsEmpty(a: seq<string>, b: seq<string>)
    requires forall y :: y in a <==> y in b
    ensures a == [] <==> b == []
  {
    if a != [] {
      assert a[0] in b;
    }
    if b != [] {
      assert b[0] in a;
    }
  }

  /** A strictly sorted sequence is determined by its elements, so SortDistinct is Python's `sorted` of the distinct values. */
  lemma {:induction false} SortedUnique(a: seq<string>, b: seq<string>)
    requires StrictlySorted(a) && StrictlySorted(b)
    requires forall y :: y in a <==> y in b
    ensures a == b
  {
    SameElementsEmpty(a, b);
    if a != [] && b != [] {
      if a[0] != b[0] {
        assert b[0] in a;
        assert a[0] in b;
        var i :| 0 <= i < |a| && a[i] == b[0];
        var j :| 0 <= j < |b| && b[j] == a[0];
        assert i > 0 && j > 0;
        LessAsymmetric(a[0], a[i]);
        assert false;
      }
      forall y ensures y in a[1..] <==> y in b[1..] {
        assert a == [a[0]] + a[1..] && b == [b[0]] + b[1..];
        if y in a[1..] {
          var i :| 0 <= i < |a[1..]| && a[1..][i] == y;
          assert Less(a[0], a[i + 1]);
          LessIrreflexive(a[0]);
          assert y in b && y != b[0];
        }
        if y in b[1..] {
          var i :| 0 <= i < |b[1..]| && b[1..][i] == y;
          assert Less(b[0], b[i + 1]);
          LessIrreflexive(b[0]);
          assert y in a && y != a[0];
        }
      }
      SortedUnique(a[1..], b[1..]);
    }
  }
}
