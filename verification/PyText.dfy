/** The string operations of the CI scripts: split, strip, join, sorted. */
module PyText {

  /** `s.split(sep)` for a one-character separator. */
  function Split(s: string, sep: char): (parts: seq<string>)
    ensures |parts| >= 1
    ensures forall i :: 0 <= i < |parts| ==> sep !in parts[i]
  {
    if s == [] then [""]
    else
      var rest := Split(s[1..], sep);
      if s[0] == sep then [""] + rest else [[s[0]] + rest[0]] + rest[1..]
  }

  /** `sep.join(parts)` */
  function Join(parts: seq<string>, sep: char): string {
    if parts == [] then ""
    else if |parts| == 1 then parts[0]
    else parts[0] + [sep] + Join(parts[1..], sep)
  }

  lemma {:induction false} SplitAfter(a: string, rest: string, sep: char)
    requires sep !in a
    ensures Split(a + [sep] + rest, sep) == [a] + Split(rest, sep)
  {
    if a == [] {
      assert (a + [sep] + rest)[1..] == rest;
    } else {
      assert (a + [sep] + rest)[1..] == a[1..] + [sep] + rest;
      SplitAfter(a[1..], rest, sep);
      assert [a[0]] + a[1..] == a;
    }
  }

  lemma {:induction false} SplitWhole(a: string, sep: char)
    requires sep !in a
    ensures Split(a, sep) == [a]
  {
    if a != [] {
      SplitWhole(a[1..], sep);
      assert [a[0]] + a[1..] == a;
    }
  }

  /** Splitting undoes joining. */
  lemma {:induction false} SplitJoin(parts: seq<string>, sep: char)
    requires parts != [] && forall i :: 0 <= i < |parts| ==> sep !in parts[i]
    ensures Split(Join(parts, sep), sep) == parts
  {
    if |parts| == 1 {
      SplitWhole(parts[0], sep);
    } else {
      SplitJoin(parts[1..], sep);
      SplitAfter(parts[0], Join(parts[1..], sep), sep);
    }
  }

  /** Joining undoes splitting. */
  lemma {:induction false} JoinSplit(s: string, sep: char)
    ensures Join(Split(s, sep), sep) == s
  {
    if s != [] {
      var rest := Split(s[1..], sep);
      JoinSplit(s[1..], sep);
      if s[0] == sep {
        assert ([""] + rest)[1..] == rest;
      } else if |rest| > 1 {
        assert ([[s[0]] + rest[0]] + rest[1..])[1..] == rest[1..];
      }
    }
  }

  /** The characters `str.strip` removes. */
  predicate IsSpace(c: char) {
    var n := c as int;
    0x09 <= n <= 0x0d || 0x1c <= n <= 0x20 || n == 0x85 || n == 0xa0 || n == 0x1680
    || 0x2000 <= n <= 0x200a || n == 0x2028 || n == 0x2029 || n == 0x202f || n == 0x205f || n == 0x3000
  }

  function Strip(s: string): string
    decreases |s|
  {
    if s != [] && IsSpace(s[0]) then Strip(s[1..])
    else if s != [] && IsSpace(s[|s| - 1]) then Strip(s[..|s| - 1])
    else s
  }

  // ---------------------------------------------------------------------
  // sorted()
  // ---------------------------------------------------------------------

  /** Code point order. */
  predicate LexLe(a: string, b: string) {
    a == [] || (b != [] && (a[0] < b[0] || (a[0] == b[0] && LexLe(a[1..], b[1..]))))
  }

  lemma {:induction false} LexTotal(a: string, b: string)
    ensures LexLe(a, b) || LexLe(b, a)
  {
    if a != [] && b != [] && a[0] == b[0] {
      LexTotal(a[1..], b[1..]);
    }
  }

  lemma {:induction false} LexAntisymmetric(a: string, b: string)
    requires LexLe(a, b) && LexLe(b, a)
    ensures a == b
  {
    if a != [] {
      LexAntisymmetric(a[1..], b[1..]);
      assert a == [a[0]] + a[1..] && b == [b[0]] + b[1..];
    }
  }

  lemma {:induction false} LexTransitive(a: string, b: string, c: string)
    requires LexLe(a, b) && LexLe(b, c)
    ensures LexLe(a, c)
  {
    if a != [] && a[0] == b[0] == c[0] {
      LexTransitive(a[1..], b[1..], c[1..]);
    }
  }

  predicate Sorted(xs: seq<string>) {
    forall i, j :: 0 <= i < j < |xs| ==> LexLe(xs[i], xs[j]) && xs[i] != xs[j]
  }

  /** `xs` is the sorted list of the set `s`. */
  predicate IsSortedOf(xs: seq<string>, s: set<string>) {
    Sorted(xs) && (set x | x in xs) == s
  }

  /** There is only one such list. */
  lemma {:induction false} SortedListIsUnique(xs: seq<string>, ys: seq<string>, s: set<string>)
    requires IsSortedOf(xs, s) && IsSortedOf(ys, s)
    ensures xs == ys
    decreases |xs|
  {
    NonEmptyTogether(xs, s);
    NonEmptyTogether(ys, s);
    if xs != [] {
      HeadIsLeast(xs, s, ys[0]);
      HeadIsLeast(ys, s, xs[0]);
      LexAntisymmetric(xs[0], ys[0]);
      TailOf(xs, s);
      TailOf(ys, s);
      SortedListIsUnique(xs[1..], ys[1..], s - {xs[0]});
      assert xs == [xs[0]] + xs[1..] && ys == [ys[0]] + ys[1..];
    }
  }

  lemma NonEmptyTogether(xs: seq<string>, s: set<string>)
    requires IsSortedOf(xs, s)
    ensures xs == [] <==> s == {}
  {
    if xs != [] {
      assert xs[0] in s;
    } else {
      assert forall e :: e in s ==> e in xs;
      assert s == {};
    }
  }

  lemma HeadIsLeast(xs: seq<string>, s: set<string>, y: string)
    requires IsSortedOf(xs, s) && xs != [] && (y in s || y == xs[0])
    ensures LexLe(xs[0], y) && xs[0] in s
  {
    assert xs[0] in s;
    LexTotal(xs[0], xs[0]);
    if y != xs[0] {
      assert y in xs;
    }
  }

  lemma TailOf(xs: seq<string>, s: set<string>)
    requires IsSortedOf(xs, s) && xs != []
    ensures IsSortedOf(xs[1..], s - {xs[0]})
  {
    hide LexLe;
    assert xs == [xs[0]] + xs[1..];
    forall x | x in xs[1..]
      ensures x != xs[0] && x in s
    {
      var i :| 0 <= i < |xs[1..]| && xs[1..][i] == x;
      assert xs[i + 1] == x;
    }
  }

  /** `min(s)` */
  method Least(s: set<string>) returns (m: string)
    requires s != {}
    ensures m in s && forall y :: y in s ==> LexLe(m, y)
  {
    m :| m in s;
    var todo := s - {m};
    LexTotal(m, m);
    while todo != {}
      invariant todo <= s && m in s
      invariant forall y :: y in s - todo ==> LexLe(m, y)
      decreases todo
    {
      var y :| y in todo;
      todo := todo - {y};
      LexTotal(m, y);
      LexTotal(y, y);
      if !LexLe(m, y) {
        forall z | z in s - todo
          ensures LexLe(y, z)
        {
          if z != y {
            LexTransitive(y, m, z);
          }
        }
        m := y;
      }
    }
  }

  /** `sorted(s)` */
  method SortedList(s: set<string>) returns (xs: seq<string>)
    ensures IsSortedOf(xs, s)
  {
    xs := [];
    var todo := s;
    while todo != {}
      invariant todo <= s && Sorted(xs) && (set x | x in xs) == s - todo
      invariant forall x, y :: x in xs && y in todo ==> LexLe(x, y)
      decreases todo
    {
      var m := Least(todo);
      assert forall x :: x in xs ==> x in (set y | y in xs);
      assert (set x | x in xs + [m]) == (set x | x in xs) + {m};
      todo := todo - {m};
      xs := xs + [m];
    }
  }
}
