/**
 * The column list that the SQL prompt shows the language model: the
 * dataset's column names joined, in order, with a comma and a space
 * (Python's `", ".join(df.columns)`).
 */
module Columns {
  import opened Strings

  /** The separator placed between two column names. */
  const Separator: string := ", "

  /** No comma in `name` is followed by a space, so `name` contains no
      separator. */
  predicate NoSeparator(name: string) {
    forall i :: 0 <= i < |name| - 1 ==> !(name[i] == ',' && name[i + 1] == ' ')
  }

  /** The rendered column list. It begins with the first name and ends with
      the last one. */
  function JoinColumns(names: seq<string>): (r: string)
    ensures |names| > 0 ==> StartsWith(r, names[0]) && EndsWith(r, names[|names| - 1])
  {
    if |names| == 0 then ""
    else if |names| == 1 then names[0]
    else names[0] + Separator + JoinColumns(names[1..])
  }

  /** Reference reading of a rendered list: cut it at every comma that is
      followed by a space. The pieces always join back to the text. */
  function SplitColumns(s: string): (names: seq<string>)
    ensures |names| >= 1
    ensures JoinColumns(names) == s
    ensures forall i :: 0 <= i < |names| ==> NoSeparator(names[i])
  {
    if |s| < 2 then [s]
    else if s[..2] == Separator then
      var rest := SplitColumns(s[2..]);
      SplitAtSeparator(s, rest);
      [""] + rest
    else
      var rest := SplitColumns(s[1..]);
      SplitGrows(s, rest);
      [[s[0]] + rest[0]] + rest[1..]
  }

  /** The step of `SplitColumns` at a separator: an empty piece starts. */
  lemma SplitAtSeparator(s: string, rest: seq<string>)
    requires |s| >= 2 && s[..2] == Separator
    requires |rest| >= 1 && JoinColumns(rest) == s[2..]
    requires forall i :: 0 <= i < |rest| ==> NoSeparator(rest[i])
    ensures JoinColumns([""] + rest) == s
    ensures forall i :: 0 <= i < |[""] + rest| ==> NoSeparator(([""] + rest)[i])
  {
    JoinCons("", rest);
    assert s == "" + Separator + s[2..];
  }

  /** The step of `SplitColumns` at any other character: it joins the first
      piece. */
  lemma SplitGrows(s: string, rest: seq<string>)
    requires |s| >= 2 && s[..2] != Separator
    requires |rest| >= 1 && JoinColumns(rest) == s[1..]
    requires forall i :: 0 <= i < |rest| ==> NoSeparator(rest[i])
    ensures JoinColumns([[s[0]] + rest[0]] + rest[1..]) == s
    ensures forall i :: 0 <= i < |[[s[0]] + rest[0]] + rest[1..]| ==> NoSeparator(([[s[0]] + rest[0]] + rest[1..])[i])
  {
    JoinGrowsFirst(s[0], rest);
    assert s == [s[0]] + s[1..];
    SplitGrowsPieces(s, rest);
  }

  lemma SplitGrowsPieces(s: string, rest: seq<string>)
    requires |s| >= 2 && s[..2] != Separator
    requires |rest| >= 1 && JoinColumns(rest) == s[1..]
    requires forall i :: 0 <= i < |rest| ==> NoSeparator(rest[i])
    ensures forall i :: 0 <= i < |[[s[0]] + rest[0]] + rest[1..]| ==> NoSeparator(([[s[0]] + rest[0]] + rest[1..])[i])
  {
    var names := [[s[0]] + rest[0]] + rest[1..];
    assert StartsWith(s[1..], rest[0]);
    NoSeparatorGrows(s, rest[0]);
    forall i | 0 <= i < |names|
      ensures NoSeparator(names[i])
    {
      if i > 0 {
        assert names[i] == rest[i];
      }
    }
  }

  lemma JoinCons(first: string, rest: seq<string>)
    requires rest != []
    ensures JoinColumns([first] + rest) == first + Separator + JoinColumns(rest)
  {
    assert ([first] + rest)[1..] == rest;
  }

  lemma SeparatorAssoc(p: string, a: string, b: string)
    ensures (p + a) + Separator + b == p + (a + Separator + b)
  {
  }

  /** Putting a character in front of the first name puts it in front of
      the whole list. */
  lemma JoinGrowsFirst(c: char, names: seq<string>)
    requires |names| > 0
    ensures JoinColumns([[c] + names[0]] + names[1..]) == [c] + JoinColumns(names)
  {
    var tail := names[1..];
    if tail == [] {
      assert [[c] + names[0]] + tail == [[c] + names[0]];
    } else {
      JoinCons([c] + names[0], tail);
      SeparatorAssoc([c], names[0], JoinColumns(tail));
    }
  }

  lemma NoSeparatorGrows(s: string, name: string)
    requires |s| >= 2 && s[..2] != Separator
    requires NoSeparator(name) && StartsWith(s[1..], name)
    ensures NoSeparator([s[0]] + name)
  {
    var t := [s[0]] + name;
    forall i | 0 <= i < |t| - 1
      ensures !(t[i] == ',' && t[i + 1] == ' ')
    {
      if i == 0 {
        assert t[1] == name[0] == s[1];
        assert s[..2] == [s[0], s[1]];
      } else {
        assert t[i] == name[i - 1] && t[i + 1] == name[i];
      }
    }
  }

  /** Reading back the list: when no column name contains the separator,
      cutting the rendered list returns every name exactly once, in the
      dataset's order. */
  lemma {:induction false} SplitJoin(names: seq<string>)
    requires |names| > 0
    requires forall i :: 0 <= i < |names| ==> NoSeparator(names[i])
    ensures SplitColumns(JoinColumns(names)) == names
  {
    if |names| == 1 {
      SplitPlain(names[0]);
    } else {
      SplitJoin(names[1..]);
      SplitAtFirstSeparator(names[0], JoinColumns(names[1..]));
      assert names == [names[0]] + names[1..];
    }
  }

  /** A name without the separator is one piece. */
  lemma {:induction false} SplitPlain(name: string)
    requires NoSeparator(name)
    ensures SplitColumns(name) == [name]
  {
    if |name| >= 2 {
      assert name[..2] != Separator by {
        assert !(name[0] == ',' && name[1] == ' ');
      }
      SplitPlain(name[1..]);
    }
  }

  /** Cutting `name + ", " + rest` stops at the separator after `name` when
      `name` has none of its own. */
  lemma {:induction false} SplitAtFirstSeparator(name: string, rest: string)
    requires NoSeparator(name)
    ensures SplitColumns(name + Separator + rest) == [name] + SplitColumns(rest)
    decreases |name|
  {
    var s := name + Separator + rest;
    if name == [] {
      assert s[..2] == Separator;
      assert s[2..] == rest;
    } else {
      assert s[..2] != Separator by {
        assert s[..2] == [s[0], s[1]];
        if |name| >= 2 {
          assert s[0] == name[0] && s[1] == name[1];
          assert !(name[0] == ',' && name[1] == ' ');
        } else {
          assert s[1] == ',';
        }
      }
      assert s[1..] == name[1..] + Separator + rest;
      var r := SplitColumns(s[1..]);
      assert SplitColumns(s) == [[s[0]] + r[0]] + r[1..];
      SplitAtFirstSeparator(name[1..], rest);
      assert r == [name[1..]] + SplitColumns(rest);
      assert [s[0]] + r[0] == name;
    }
  }

  /** The rendered list is as long as the names together plus two
      characters for each separator. */
  lemma {:induction false} JoinLength(names: seq<string>)
    requires |names| > 0
    ensures |JoinColumns(names)| == TotalLength(names) + 2 * (|names| - 1)
  {
    if |names| > 1 {
      JoinLength(names[1..]);
    }
  }

  function TotalLength(names: seq<string>): nat {
    if names == [] then 0 else |names[0]| + TotalLength(names[1..])
  }

  /** The rendered list cannot tell one column whose name contains the
      separator from two columns: `a, b` reads the same either way. */
  lemma JoinAmbiguous(a: string, b: string)
    ensures JoinColumns([a + Separator + b]) == JoinColumns([a, b])
    ensures [a + Separator + b] != [a, b]
  {
    assert [a, b][1..] == [b];
  }
}
