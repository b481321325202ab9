/**
 The text normalisation behind the answer check: Python's `str.strip()`
 without arguments, `str.lower()` on ASCII letters, and the substring test
 that Python's `in` performs on two strings.
 */
module Text {

  /** The characters Python's `str.isspace()` accepts; `str.strip()` removes them from both ends. */
  predicate IsSpace(c: char) {
    var n := c as int;
    || (0x09 <= n <= 0x0D)
    || (0x1C <= n <= 0x20)
    || n == 0x85 || n == 0xA0 || n == 0x1680
    || (0x2000 <= n <= 0x200A)
    || n == 0x2028 || n == 0x2029 || n == 0x202F || n == 0x205F || n == 0x3000
  }

  predicate AllSpace(s: string) {
    forall i :: 0 <= i < |s| ==> IsSpace(s[i])
  }

  /** ASCII lower-casing of one character; every other character is left alone. */
  function LowerChar(c: char): char {
    if 'A' <= c <= 'Z' then (c as int + 32) as char else c
  }

  function Lower(s: string): string {
    seq(|s|, i requires 0 <= i < |s| => LowerChar(s[i]))
  }

  /** The needle starts at position i of the hay. */
  predicate OccursAt(hay: string, needle: string, i: int) {
    0 <= i <= |hay| && needle <= hay[i..]
  }

  /** `needle in hay` for Python strings: the needle occurs at some position of the hay. */
  predicate Contains(hay: string, needle: string) {
    exists i | 0 <= i <= |hay| :: OccursAt(hay, needle, i)
  }

  /** Removes leading whitespace. */
  function StripLeft(s: string): string {
    if |s| > 0 && IsSpace(s[0]) then StripLeft(s[1..]) else s
  }

  /** Removes trailing whitespace. */
  function StripRight(s: string): string {
    if |s| > 0 && IsSpace(s[|s| - 1]) then StripRight(s[..|s| - 1]) else s
  }

  /** Python's `s.strip()`: the part of `s` between its leading and its trailing whitespace. */
  function Strip(s: string): string {
    StripRight(StripLeft(s))
  }

  /** What `lstrip()` leaves is a suffix of `s` that does not start with a space, and only spaces were cut. */
  lemma {:induction false} StripLeftShape(s: string)
    ensures var r := StripLeft(s);
      && |r| <= |s| && r == s[|s| - |r|..]
      && AllSpace(s[..|s| - |r|])
      && (r == [] || !IsSpace(r[0]))
    decreases |s|
  {
    if |s| > 0 && IsSpace(s[0]) {
      var t := s[1..];
      StripLeftShape(t);
      var r := StripLeft(t);
      assert s[|s| - |r|..] == t[|t| - |r|..];
      assert s[..|s| - |r|] == [s[0]] + t[..|t| - |r|];
    } else {
      assert s[..0] == [];
    }
  }

  /** What `rstrip()` leaves is a prefix of `s` that does not end with a space, and only spaces were cut. */
  lemma {:induction false} StripRightShape(s: string)
    ensures var r := StripRight(s);
      && |r| <= |s| && r == s[..|r|]
      && AllSpace(s[|r|..])
      && (r == [] || !IsSpace(r[|r| - 1]))
    decreases |s|
  {
    if |s| > 0 && IsSpace(s[|s| - 1]) {
      var t := s[..|s| - 1];
      StripRightShape(t);
      var r := StripRight(t);
      assert s[..|r|] == t[..|r|];
      assert s[|r|..] == t[|r|..] + [s[|s| - 1]];
    } else {
      assert s[|s|..] == [];
    }
  }

  /** `strip()` cuts a stretch out of `s` that neither starts nor ends with a space, and is empty only for blank `s`. */
  lemma StripShape(s: string)
    ensures var r := Strip(s);
      && Contains(s, r)
      && (r == [] <==> AllSpace(s))
      && (r == [] || (!IsSpace(r[0]) && !IsSpace(r[|r| - 1])))
  {
    var l := StripLeft(s);
    var r := StripRight(l);
    StripLeftShape(s);
    StripRightShape(l);
    assert OccursAt(s, r, |s| - |l|);
    assert r == [] ==> AllSpace(s) by {
      if r == [] {
        assert s[..|s| - |l|] == s;
      }
    }
    assert r != [] ==> r[0] == l[0];
  }

  lemma LowerSlice(s: string, i: int, j: int)
    requires 0 <= i <= j <= |s|
    ensures Lower(s)[i..j] == Lower(s[i..j])
  {
  }

  lemma LowerKeepsSpace(c: char)
    ensures IsSpace(LowerChar(c)) == IsSpace(c)
  {
  }

  lemma {:induction false} StripLeftLower(s: string)
    ensures StripLeft(Lower(s)) == Lower(StripLeft(s))
    decreases |s|
  {
    if |s| > 0 {
      LowerKeepsSpace(s[0]);
      LowerSlice(s, 1, |s|);
      assert Lower(s)[1..] == Lower(s[1..]);
      if IsSpace(s[0]) {
        StripLeftLower(s[1..]);
      }
    }
  }

  lemma {:induction false} StripRightLower(s: string)
    ensures StripRight(Lower(s)) == Lower(StripRight(s))
    decreases |s|
  {
    if |s| > 0 {
      LowerKeepsSpace(s[|s| - 1]);
      LowerSlice(s, 0, |s| - 1);
      assert Lower(s)[..|s| - 1] == Lower(s[..|s| - 1]);
      if IsSpace(s[|s| - 1]) {
        StripRightLower(s[..|s| - 1]);
      }
    }
  }

  /** Lower-casing never moves the strip boundaries: no ASCII letter is whitespace. */
  lemma StripLower(s: string)
    ensures Strip(Lower(s)) == Lower(Strip(s))
  {
    StripLeftLower(s);
    StripRightLower(StripLeft(s));
  }

  lemma {:induction false} StripLeftPadded(p: string, s: string)
    requires AllSpace(p)
    ensures StripLeft(p + s) == StripLeft(s)
    decreases |p|
  {
    if |p| > 0 {
      assert (p + s)[1..] == p[1..] + s;
      StripLeftPadded(p[1..], s);
    } else {
      assert p + s == s;
    }
  }

  lemma {:induction false} StripRightPadded(s: string, q: string)
    requires AllSpace(q)
    ensures StripRight(s + q) == StripRight(s)
    decreases |q|
  {
    if |q| > 0 {
      assert (s + q)[..|s + q| - 1] == s + q[..|q| - 1];
      StripRightPadded(s, q[..|q| - 1]);
    } else {
      assert s + q == s;
    }
  }

  /** Leading whitespace followed by text that does not start with a space: appending keeps the cut. */
  lemma {:induction false} StripLeftAppend(s: string, q: string)
    requires StripLeft(s) != []
    ensures StripLeft(s + q) == StripLeft(s) + q
    decreases |s|
  {
    assert (s + q)[0] == s[0];
    if IsSpace(s[0]) {
      assert (s + q)[1..] == s[1..] + q;
      StripLeftAppend(s[1..], q);
    }
  }

  lemma {:induction false} StripRightPrepend(p: string, s: string)
    requires StripRight(s) != []
    ensures StripRight(p + s) == p + StripRight(s)
    decreases |s|
  {
    assert (p + s)[|p + s| - 1] == s[|s| - 1];
    if IsSpace(s[|s| - 1]) {
      assert (p + s)[..|p + s| - 1] == p + s[..|s| - 1];
      StripRightPrepend(p, s[..|s| - 1]);
    }
  }

  /** A blank string strips to nothing. */
  lemma {:induction false} StripLeftBlank(s: string)
    requires AllSpace(s)
    ensures StripLeft(s) == []
    decreases |s|
  {
    if |s| > 0 {
      StripLeftBlank(s[1..]);
    }
  }

  lemma AllSpaceAppend(s: string, q: string)
    requires AllSpace(s) && AllSpace(q)
    ensures AllSpace(s + q)
  {
    forall i | 0 <= i < |s + q|
      ensures IsSpace((s + q)[i])
    {
      if i < |s| {
        assert (s + q)[i] == s[i];
      } else {
        assert (s + q)[i] == q[i - |s|];
      }
    }
  }

  /** Whitespace added around a text never changes what `strip()` returns. */
  lemma StripPadded(p: string, s: string, q: string)
    requires AllSpace(p) && AllSpace(q)
    ensures Strip(p + s + q) == Strip(s)
  {
    assert p + s + q == p + (s + q);
    StripLeftPadded(p, s + q);
    var l := StripLeft(s);
    if l != [] {
      StripLeftAppend(s, q);
      StripRightPadded(l, q);
    } else {
      StripLeftShape(s);
      assert s[..|s|] == s;
      AllSpaceAppend(s, q);
      StripLeftBlank(s + q);
    }
  }

  /** `needle in Lower(hay)` holds exactly when some slice of `hay`, lower-cased, equals the needle. */
  lemma ContainsLower(hay: string, needle: string)
    ensures Contains(Lower(hay), needle) <==>
            exists i, j :: 0 <= i <= j <= |hay| && Lower(hay[i..j]) == needle
  {
    if Contains(Lower(hay), needle) {
      var i :| 0 <= i <= |Lower(hay)| && OccursAt(Lower(hay), needle, i);
      assert needle <= Lower(hay)[i..];
      var j := i + |needle|;
      LowerSlice(hay, i, j);
      assert Lower(hay[i..j]) == needle;
    }
    if exists i, j :: 0 <= i <= j <= |hay| && Lower(hay[i..j]) == needle {
      var i, j :| 0 <= i <= j <= |hay| && Lower(hay[i..j]) == needle;
      LowerSlice(hay, i, j);
      assert OccursAt(Lower(hay), needle, i);
    }
  }
}
