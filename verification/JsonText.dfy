/** Character-level vocabulary of JSON text: sections 2 and 7 of RFC 8259. */
module JsonText {

  datatype Option<+T> = None | Some(value: T)

  /** RFC 8259 section 7: the characters that may not appear raw in a string. */
  predicate IsControl(c: char) {
    c as int <= 0x1f
  }

  predicate IsDigit(c: char) {
    '0' <= c <= '9'
  }

  predicate IsHex(c: char) {
    IsDigit(c) || 'a' <= c <= 'f' || 'A' <= c <= 'F'
  }

  function HexValue(c: char): (n: nat)
    requires IsHex(c)
    ensures n < 16
  {
    if IsDigit(c) then c as int - '0' as int
    else if 'a' <= c <= 'f' then c as int - 'a' as int + 10
    else c as int - 'A' as int + 10
  }

  /** Lower-case hexadecimal digit, as `{:x}` prints it. */
  function HexDigit(n: nat): (c: char)
    requires n < 16
    ensures IsHex(c) && HexValue(c) == n
  {
    if n < 10 then ('0' as int + n) as char else ('a' as int + n - 10) as char
  }

  predicate IsSimpleEscape(c: char) {
    c == '"' || c == '\\' || c == '/' || c == 'b' || c == 'f' || c == 'n' || c == 'r' || c == 't'
  }

  /** The code unit a two-character escape stands for. */
  function SimpleEscapeUnit(c: char): nat
    requires IsSimpleEscape(c)
  {
    match c
    case 'b' => 0x08
    case 'f' => 0x0c
    case 'n' => 0x0a
    case 'r' => 0x0d
    case 't' => 0x09
    case _ => c as int
  }

  /** Length of the valid escape at the head of `s` (6 for `\uXXXX`, 2 for the
      simple ones), or 0 when the backslash does not start a valid escape. */
  function EscapeLength(s: string): (n: nat)
    requires s != [] && s[0] == '\\'
    ensures n == 0 || n == 2 || n == 6
    ensures n <= |s|
  {
    if |s| >= 6 && s[1] == 'u' && IsHex(s[2]) && IsHex(s[3]) && IsHex(s[4]) && IsHex(s[5]) then 6
    else if |s| >= 2 && IsSimpleEscape(s[1]) then 2
    else 0
  }

  function EscapeUnit(s: string): nat
    requires s != [] && s[0] == '\\' && EscapeLength(s) > 0
  {
    if EscapeLength(s) == 2 then SimpleEscapeUnit(s[1])
    else ((HexValue(s[2]) * 16 + HexValue(s[3])) * 16 + HexValue(s[4])) * 16 + HexValue(s[5])
  }

  /** UTF-16 code units of one character. */
  function Units(c: char): (u: seq<nat>)
    ensures 1 <= |u| <= 2
  {
    var n := c as int;
    if n < 0x10000 then [n]
    else [0xD800 + (n - 0x10000) / 0x400, 0xDC00 + (n - 0x10000) % 0x400]
  }

  /** One unit is the character itself; two are a high and a low surrogate that
      give it back. */
  lemma UnitsAre(c: char)
    ensures var u := Units(c);
            && (|u| == 1 ==> u[0] == c as int < 0x10000)
            && (|u| == 2 ==> 0xD800 <= u[0] < 0xDC00 <= u[1] < 0xE000)
            && (|u| == 2 ==> c as int == 0x10000 + 0x400 * (u[0] - 0xD800) + (u[1] - 0xDC00))
  {
  }

  /** UTF-16 code units of a text. */
  function Utf16(s: string): seq<nat> {
    if s == [] then [] else Units(s[0]) + Utf16(s[1..])
  }

  lemma {:induction false} Utf16Append(a: string, b: string)
    ensures Utf16(a + b) == Utf16(a) + Utf16(b)
  {
    if a == [] {
      assert a + b == b;
    } else {
      assert (a + b)[1..] == a[1..] + b;
      Utf16Append(a[1..], b);
    }
  }

  /** Characters with the Unicode property White_Space, which `str::trim` and
      `char::is_whitespace` use. */
  predicate IsWhitespace(c: char) {
    var n := c as int;
    0x09 <= n <= 0x0d || n == 0x20 || n == 0x85 || n == 0xa0 || n == 0x1680
    || 0x2000 <= n <= 0x200a || n == 0x2028 || n == 0x2029 || n == 0x202f || n == 0x205f || n == 0x3000
  }

  predicate IsBlank(s: string) {
    forall i :: 0 <= i < |s| ==> IsWhitespace(s[i])
  }

  /** `str::trim` */
  function Trim(s: string): string
    decreases |s|
  {
    if s != "" && IsWhitespace(s[0]) then Trim(s[1..])
    else if s != "" && IsWhitespace(s[|s| - 1]) then Trim(s[..|s| - 1])
    else s
  }

  /** `s` is `t` with only whitespace around it, and `t` has none at its
      ends. */
  ghost predicate IsTrimmed(t: string, s: string) {
    && (t != "" ==> !IsWhitespace(t[0]) && !IsWhitespace(t[|t| - 1]))
    && exists n: nat :: Surrounds(s, t, n)
  }

  predicate Surrounds(s: string, t: string, n: nat) {
    && n + |t| <= |s| && s[n..n + |t|] == t
    && forall i :: 0 <= i < |s| && !(n <= i < n + |t|) ==> IsWhitespace(s[i])
  }

  lemma {:induction false} TrimIsTrimmed(s: string)
    ensures IsTrimmed(Trim(s), s)
    decreases |s|
  {
    hide IsWhitespace;
    if s != "" && IsWhitespace(s[0]) {
      TrimIsTrimmed(s[1..]);
      var n: nat :| Surrounds(s[1..], Trim(s[1..]), n);
      SurroundsAfter(s, Trim(s), n);
    } else if s != "" && IsWhitespace(s[|s| - 1]) {
      var front := s[..|s| - 1];
      TrimIsTrimmed(front);
      var n: nat :| Surrounds(front, Trim(front), n);
      SurroundsBefore(s, Trim(s), n);
    } else {
      assert Surrounds(s, s, 0);
    }
  }

  lemma SurroundsAfter(s: string, t: string, n: nat)
    requires s != "" && IsWhitespace(s[0]) && Surrounds(s[1..], t, n)
    ensures Surrounds(s, t, n + 1)
  {
    hide IsWhitespace;
    assert forall i :: 1 <= i < |s| ==> s[i] == s[1..][i - 1];
  }

  lemma SurroundsBefore(s: string, t: string, n: nat)
    requires s != "" && IsWhitespace(s[|s| - 1]) && Surrounds(s[..|s| - 1], t, n)
    ensures Surrounds(s, t, n)
  {
    hide IsWhitespace;
    var front := s[..|s| - 1];
    assert forall i :: 0 <= i < |front| ==> s[i] == front[i];
  }

  /** Only one text is left when the whitespace around `s` is dropped. */
  lemma TrimmedIsUnique(s: string, t: string)
    requires IsTrimmed(t, s)
    ensures t == Trim(s)
  {
    TrimIsTrimmed(s);
    var n: nat :| Surrounds(s, t, n);
    var m: nat :| Surrounds(s, Trim(s), m);
    SameMiddle(s, t, n, Trim(s), m);
    SameMiddle(s, Trim(s), m, t, n);
    if t != "" {
      assert s[n..n + |t|] == s[m..m + |Trim(s)|];
    }
  }

  /** Every character that is no whitespace lies within the middle. */
  lemma SameMiddle(s: string, t: string, n: nat, u: string, m: nat)
    requires Surrounds(s, t, n) && Surrounds(s, u, m)
    requires t != "" ==> !IsWhitespace(t[0]) && !IsWhitespace(t[|t| - 1])
    ensures t != "" ==> m <= n && n + |t| <= m + |u|
  {
    hide IsWhitespace;
    if t != "" {
      assert s[n] == t[0] && s[n + |t| - 1] == t[|t| - 1];
    }
  }

  /** RFC 8259 section 2: insignificant whitespace. */
  predicate IsJsonSpace(c: char) {
    c == ' ' || c == '\t' || c == '\n' || c == '\r'
  }
}
