/** Text standing at a position of a longer text. */
module Spans {

  /** The text `e` stands at position p of s. */
  ghost predicate HasAt(s: string, p: nat, e: string)
    decreases |e|
  {
    p <= |s| && (e == [] || (p < |s| && s[p] == e[0] && HasAt(s, p + 1, e[1..])))
  }

  lemma {:induction false} HasAtSplit(s: string, p: nat, a: string, b: string)
    ensures HasAt(s, p, a + b) <==> HasAt(s, p, a) && HasAt(s, p + |a|, b)
    decreases |a|
  {
    if a == [] {
      assert a + b == b;
    } else {
      assert (a + b)[1..] == a[1..] + b;
      HasAtSplit(s, p + 1, a[1..], b);
    }
  }

  lemma {:induction false} HasAtExtends(s: string, p: nat, e: string, x: string)
    requires HasAt(s, p, e)
    ensures HasAt(s + x, p, e)
    decreases |e|
  {
    if e != [] {
      HasAtExtends(s, p + 1, e[1..], x);
    }
  }

  lemma {:induction false} HasAtSlice(s: string, p: nat, e: string)
    ensures HasAt(s, p, e) <==> p + |e| <= |s| && s[p..p + |e|] == e
    decreases |e|
  {
    if e != [] && p < |s| {
      HasAtSlice(s, p + 1, e[1..]);
      if p + |e| <= |s| {
        assert s[p..p + |e|] == [s[p]] + s[p + 1..p + |e|];
        assert e == [e[0]] + e[1..];
      }
    }
  }

  lemma {:induction false} HasAtChars(s: string, p: nat, e: string)
    requires HasAt(s, p, e)
    ensures p + |e| <= |s| && forall i :: 0 <= i < |e| ==> s[p + i] == e[i]
  {
    HasAtSlice(s, p, e);
    forall i | 0 <= i < |e|
      ensures s[p + i] == e[i]
    {
      assert s[p..p + |e|][i] == s[p + i];
    }
  }

  lemma {:induction false} HasAtFirst(s: string, p: nat, e: string)
    requires HasAt(s, p, e) && e != []
    ensures p < |s| && s[p] == e[0] && HasAt(s, p + 1, e[1..])
  {
  }

  lemma {:induction false} HasAtTwo(s: string, p: nat, a: char, b: char)
    requires HasAt(s, p, [a, b])
    ensures p + 1 < |s| && s[p] == a && s[p + 1] == b
  {
    HasAtFirst(s, p, [a, b]);
    HasAtFirst(s, p + 1, [b]);
  }

  /** A text stands at the start of itself followed by anything. */
  lemma {:induction false} HasAtStart(e: string, x: string)
    ensures HasAt(e + x, 0, e)
  {
    assert (e + x)[0..|e|] == e;
    HasAtSlice(e + x, 0, e);
  }

  /** A C string: the bytes up to the first NUL. */
  function CString(s: string): (r: string)
    ensures '\0' !in r && |r| <= |s|
  {
    if s == [] || s[0] == '\0' then [] else [s[0]] + CString(s[1..])
  }

  lemma {:induction false} CStringOf(s: string)
    requires '\0' !in s
    ensures CString(s) == s
  {
    if s != [] {
      CStringOf(s[1..]);
    }
  }

  lemma {:induction false} CStringConcat(a: string, b: string)
    requires '\0' !in a
    ensures CString(a + b) == a + CString(b)
    decreases |a|
  {
    if a == [] {
      assert a + b == b;
    } else {
      assert (a + b)[1..] == a[1..] + b;
      CStringConcat(a[1..], b);
    }
  }
}
