/**
 * The three Python string builtins the SQL clean-up relies on, `str.strip()`,
 * `str.startswith(p)` and `str.replace(p, "")`, stated over `seq<char>`,
 * together with the facts about them that the clean-up's properties need.
 */
module Strings {

  /** Python's `str.isspace` for one character: the code points that
      `str.strip()` with no argument removes. */
  predicate IsSpace(c: char): (b: bool)
    ensures c as int < 0x80 ==>
      (b <==> c in {' ', '\t', '\n', '\r', '\U{0B}', '\U{0C}', '\U{1C}', '\U{1D}', '\U{1E}', '\U{1F}'})
  {
    var n := c as int;
    || 0x09 <= n <= 0x0D
    || 0x1C <= n <= 0x20
    || n == 0x85 || n == 0xA0 || n == 0x1680
    || 0x2000 <= n <= 0x200A
    || n == 0x2028 || n == 0x2029 || n == 0x202F || n == 0x205F || n == 0x3000
  }

  predicate AllSpace(s: string) {
    forall i :: 0 <= i < |s| ==> IsSpace(s[i])
  }

  /** No character of `s` is `c`. */
  predicate Lacks(s: string, c: char) {
    forall i :: 0 <= i < |s| ==> s[i] != c
  }

  /** Neither the first nor the last character is whitespace. */
  predicate NoEdgeSpace(s: string) {
    s == [] || (!IsSpace(s[0]) && !IsSpace(s[|s| - 1]))
  }

  /** Python's `s.startswith(p)`. */
  predicate StartsWith(s: string, p: string) {
    |p| <= |s| && s[..|p|] == p
  }

  /** `s.startswith(p)` holds exactly when `s` is at least as long as `p`
      and agrees with it position by position. */
  lemma StartsWithAt(s: string, p: string)
    ensures StartsWith(s, p) <==> |p| <= |s| && forall i :: 0 <= i < |p| ==> s[i] == p[i]
  {
    if |p| <= |s| && forall i :: 0 <= i < |p| ==> s[i] == p[i] {
      assert s[..|p|] == p;
    }
  }

  /** `s` ends with `p`. */
  predicate EndsWith(s: string, p: string) {
    |p| <= |s| && s[|s| - |p|..] == p
  }

  /** The characters of `s` that satisfy `keep`, in their order in `s`. */
  function Filter(s: string, keep: char -> bool): (r: string)
    ensures |r| <= |s|
    ensures forall i :: 0 <= i < |r| ==> keep(r[i])
  {
    if s == [] then []
    else if keep(s[0]) then [s[0]] + Filter(s[1..], keep)
    else Filter(s[1..], keep)
  }

  lemma {:induction false} FilterConcat(a: string, b: string, keep: char -> bool)
    ensures Filter(a + b, keep) == Filter(a, keep) + Filter(b, keep)
  {
    if a == [] {
      assert a + b == b;
    } else {
      assert (a + b)[1..] == a[1..] + b;
      FilterConcat(a[1..], b, keep);
    }
  }

  lemma {:induction false} FilterNone(s: string, keep: char -> bool)
    requires forall i :: 0 <= i < |s| ==> !keep(s[i])
    ensures Filter(s, keep) == []
  {
    if s != [] {
      FilterNone(s[1..], keep);
    }
  }

  /** The part of `s` left after removing its leading whitespace: it does
      not begin with whitespace (`TrimStartDrops` says what was removed). */
  function TrimStart(s: string): (r: string)
    ensures |r| <= |s|
    ensures r == [] || !IsSpace(r[0])
  {
    if s != [] && IsSpace(s[0]) then TrimStart(s[1..]) else s
  }

  /** `TrimStart` removes a run of whitespace from the front and nothing
      else. */
  lemma {:induction false} TrimStartDrops(s: string)
    ensures var r := TrimStart(s);
      r == s[|s| - |r|..] && AllSpace(s[..|s| - |r|])
  {
    if s != [] && IsSpace(s[0]) {
      var r := TrimStart(s[1..]);
      TrimStartDrops(s[1..]);
      assert s[..|s| - |r|] == [s[0]] + s[1..][..|s| - 1 - |r|];
    }
  }

  /** The part of `s` left after removing its trailing whitespace: it does
      not end with whitespace (`TrimEndDrops` says what was removed). */
  function TrimEnd(s: string): (r: string)
    ensures |r| <= |s|
    ensures r == [] || !IsSpace(r[|r| - 1])
  {
    if s != [] && IsSpace(s[|s| - 1]) then TrimEnd(s[..|s| - 1]) else s
  }

  /** `TrimEnd` removes a run of whitespace from the end and nothing
      else. */
  lemma {:induction false} TrimEndDrops(s: string)
    ensures var r := TrimEnd(s);
      r == s[..|r|] && AllSpace(s[|r|..])
  {
    if s != [] && IsSpace(s[|s| - 1]) {
      var r := TrimEnd(s[..|s| - 1]);
      TrimEndDrops(s[..|s| - 1]);
      assert s[|r|..] == s[..|s| - 1][|r|..] + [s[|s| - 1]];
    }
  }

  /** Python's `s.strip()`: the result has no whitespace at either end, is
      never longer than `s`, and leaves a string without edge whitespace as
      it is (so stripping twice is stripping once). */
  function Strip(s: string): (r: string)
    ensures NoEdgeSpace(r)
    ensures |r| <= |s|
    ensures NoEdgeSpace(s) ==> r == s
  {
    var t := TrimStart(s);
    TrimEndDrops(t);
    TrimEnd(t)
  }

  lemma SpacesDropped(s: string, keep: char -> bool)
    requires forall c :: keep(c) ==> !IsSpace(c)
    requires AllSpace(s)
    ensures Filter(s, keep) == []
  {
    FilterNone(s, keep);
  }

  /** `Strip` removes nothing but whitespace: every character that is not
      whitespace survives, in order. */
  lemma StripKeeps(s: string, keep: char -> bool)
    requires forall c :: keep(c) ==> !IsSpace(c)
    ensures Filter(Strip(s), keep) == Filter(s, keep)
  {
    var t := TrimStart(s);
    var r := TrimEnd(t);
    TrimStartDrops(s);
    TrimEndDrops(t);
    var head, tail := s[..|s| - |t|], t[|r|..];
    assert s == head + t;
    assert t == r + tail;
    FilterConcat(head, t, keep);
    FilterConcat(r, tail, keep);
    SpacesDropped(head, keep);
    SpacesDropped(tail, keep);
  }

  /** `p` occurs in `s` at position `i`. */
  predicate OccursAt(s: string, p: string, i: int) {
    0 <= i && i + |p| <= |s| && s[i..i + |p|] == p
  }

  /** Python's `s.replace(p, "")` for a non-empty `p`: every occurrence of
      `p` found by a left-to-right scan that resumes after each match is
      deleted. */
  function DeleteAll(s: string, p: string): (r: string)
    requires |p| > 0
    ensures |r| <= |s|
    decreases |s|
  {
    if |s| < |p| then s
    else if s[..|p|] == p then DeleteAll(s[|p|..], p)
    else [s[0]] + DeleteAll(s[1..], p)
  }

  /** `DeleteAll` removes only characters of the pattern: every character
      that does not occur in `p` survives, in order. This is why the deletion
      is case-sensitive: `S`, `Q`, `L` are not characters of `sql`. */
  lemma {:induction false} DeleteAllKeeps(s: string, p: string, keep: char -> bool)
    requires |p| > 0
    requires forall i :: 0 <= i < |p| ==> !keep(p[i])
    ensures Filter(DeleteAll(s, p), keep) == Filter(s, keep)
    decreases |s|
  {
    if |s| < |p| {
    } else if s[..|p|] == p {
      assert s == p + s[|p|..];
      FilterConcat(p, s[|p|..], keep);
      FilterNone(p, keep);
      DeleteAllKeeps(s[|p|..], p, keep);
    } else {
      assert DeleteAll(s, p) == [s[0]] + DeleteAll(s[1..], p);
      assert ([s[0]] + DeleteAll(s[1..], p))[1..] == DeleteAll(s[1..], p);
      DeleteAllKeeps(s[1..], p, keep);
    }
  }

  /** A string in which `p` never occurs is left as it is. */
  lemma {:induction false} DeleteAllAbsent(s: string, p: string)
    requires |p| > 0
    requires forall i :: !OccursAt(s, p, i)
    ensures DeleteAll(s, p) == s
    decreases |s|
  {
    if |s| >= |p| {
      assert !OccursAt(s, p, 0);
      forall i | OccursAt(s[1..], p, i)
        ensures false
      {
        assert s[1..][i..i + |p|] == s[i + 1..i + 1 + |p|];
        assert OccursAt(s, p, i + 1);
      }
      DeleteAllAbsent(s[1..], p);
    }
  }

  /** A pattern at the front is deleted as a whole. */
  lemma DeleteAllFront(p: string, s: string)
    requires |p| > 0
    ensures DeleteAll(p + s, p) == DeleteAll(s, p)
  {
    assert (p + s)[..|p|] == p;
    assert (p + s)[|p|..] == s;
  }

  /** A stretch with no character that starts the pattern is copied as it
      is, whatever follows it. */
  lemma {:induction false} DeleteAllCopies(u: string, v: string, p: string)
    requires |p| > 0
    requires Lacks(u, p[0])
    ensures DeleteAll(u + v, p) == u + DeleteAll(v, p)
    decreases |u|
  {
    if u == [] {
      assert u + v == v;
    } else {
      var s := u + v;
      assert s[0] == u[0] != p[0];
      DeleteAllSkip(s, p);
      assert s[1..] == u[1..] + v;
      DeleteAllCopies(u[1..], v, p);
      assert u == [u[0]] + u[1..];
    }
  }

  /** A character that does not begin an occurrence of the pattern is kept. */
  lemma DeleteAllSkip(s: string, p: string)
    requires |p| > 0 && s != [] && !StartsWith(s, p)
    ensures DeleteAll(s, p) == [s[0]] + DeleteAll(s[1..], p)
  {
  }

  lemma {:induction false} TrimStartSpaces(u: string, t: string)
    requires AllSpace(u)
    requires t == [] || !IsSpace(t[0])
    ensures TrimStart(u + t) == t
    decreases |u|
  {
    if u == [] {
      assert u + t == t;
    } else {
      assert (u + t)[1..] == u[1..] + t;
      TrimStartSpaces(u[1..], t);
    }
  }

  lemma {:induction false} TrimEndSpaces(t: string, w: string)
    requires AllSpace(w)
    requires t == [] || !IsSpace(t[|t| - 1])
    ensures TrimEnd(t + w) == t
    decreases |w|
  {
    if w == [] {
      assert t + w == t;
    } else {
      assert (t + w)[..|t + w| - 1] == t + w[..|w| - 1];
      TrimEndSpaces(t, w[..|w| - 1]);
    }
  }

  /** Whitespace around a string without edge whitespace is exactly what
      `Strip` removes. */
  lemma StripAround(u: string, v: string, w: string)
    requires AllSpace(u) && AllSpace(w) && NoEdgeSpace(v)
    ensures Strip(u + v + w) == v
  {
    if v == [] {
      assert u + v + w == u + w;
      TrimStartSpaces(u + w, []);
      assert u + w + [] == u + w;
      assert TrimStart(u + w) == [];
    } else {
      assert u + v + w == u + (v + w);
      TrimStartSpaces(u, v + w);
      TrimEndSpaces(v, w);
    }
  }
}
