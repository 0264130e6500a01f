/** Row selection on tables held as sequences: the boolean-mask indexing `df[mask]` of the script. */
module Tables {
  /** The rows of `s` that satisfy `keep`, in their original order. */
  function Filter<T(!new)>(s: seq<T>, keep: T -> bool): (r: seq<T>)
    ensures |r| <= |s|
    ensures forall x :: x in r <==> x in s && keep(x)
  {
    if s == [] then []
    else if keep(s[0]) then [s[0]] + Filter(s[1..], keep)
    else Filter(s[1..], keep)
  }

  lemma {:induction false} FilterConcat<T(!new)>(a: seq<T>, b: seq<T>, keep: T -> bool)
    ensures Filter(a + b, keep) == Filter(a, keep) + Filter(b, keep)
  {
    if a == [] {
      assert a + b == b;
    } else {
      assert (a + b)[0] == a[0];
      assert (a + b)[1..] == a[1..] + b;
      FilterConcat(a[1..], b, keep);
    }
  }

  /** Two selections may be applied in either order. */
  lemma {:induction false} FilterCommutes<T(!new)>(s: seq<T>, f: T -> bool, g: T -> bool)
    ensures Filter(Filter(s, f), g) == Filter(Filter(s, g), f)
  {
    if s != [] {
      FilterCommutes(s[1..], f, g);
    }
  }

  /** A selection that every row passes keeps the table as it is. */
  lemma {:induction false} FilterKeepsAll<T(!new)>(s: seq<T>, keep: T -> bool)
    requires forall x :: x in s ==> keep(x)
    ensures Filter(s, keep) == s
  {
    if s != [] {
      assert s[0] in s;
      forall x | x in s[1..] ensures keep(x) {
        assert x in s;
      }
      FilterKeepsAll(s[1..], keep);
    }
  }

  /** A selection that no row passes gives the empty table. */
  lemma {:induction false} FilterDropsAll<T(!new)>(s: seq<T>, keep: T -> bool)
    requires forall x :: x in s ==> !keep(x)
    ensures Filter(s, keep) == []
  {
    if s != [] {
      assert s[0] in s;
      forall x | x in s[1..] ensures !keep(x) {
        assert x in s;
      }
      FilterDropsAll(s[1..], keep);
    }
  }

  /** Two selections that agree on every row of the table select the same rows. */
  lemma {:induction false} FilterAgree<T(!new)>(s: seq<T>, f: T -> bool, g: T -> bool)
    requires forall x :: x in s ==> f(x) == g(x)
    ensures Filter(s, f) == Filter(s, g)
  {
    if s != [] {
      assert s[0] in s;
      forall x | x in s[1..] ensures f(x) == g(x) {
        assert x in s;
      }
      FilterAgree(s[1..], f, g);
    }
  }

  lemma FilterSnoc<T(!new)>(a: seq<T>, x: T, keep: T -> bool)
    ensures Filter(a + [x], keep) == if keep(x) then Filter(a, keep) + [x] else Filter(a, keep)
  {
    FilterConcat(a, [x], keep);
    assert [x][1..] == [];
  }

  /** `df[~mask]`: the rows whose mask entry is False, collected in order. */
  method DropMasked<T(!new)>(s: seq<T>, mask: seq<bool>, keep: T -> bool) returns (r: seq<T>)
    requires |mask| == |s|
    requires forall k :: 0 <= k < |s| ==> mask[k] == !keep(s[k])
    ensures r == Filter(s, keep)
  {
    r := [];
    var j := 0;
    while j < |s|
      invariant 0 <= j <= |s|
      invariant r == Filter(s[..j], keep)
    {
      assert s[..j + 1] == s[..j] + [s[j]];
      FilterSnoc(s[..j], s[j], keep);
      if !mask[j] {
        r := r + [s[j]];
      }
      j := j + 1;
    }
    assert s[..|s|] == s;
  }
}
