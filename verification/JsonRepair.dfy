/** `repair_json`: escape raw control characters inside strings and double the
    backslashes that do not start a valid escape. */
module JsonRepair {
  import opened JsonText

  function EscapeControl(c: char): (e: string)
    requires IsControl(c)
  {
    match c as int
    case 0x08 => "\\b"
    case 0x0c => "\\f"
    case 0x0a => "\\n"
    case 0x0d => "\\r"
    case 0x09 => "\\t"
    case n => "\\u00" + [HexDigit(n / 16), HexDigit(n % 16)]
  }

  /** The repaired form of `s`, scanned from inside or outside a string. */
  function Repair(s: string, inString: bool): string {
    if s == [] then []
    else if !inString then [s[0]] + Repair(s[1..], s[0] == '"')
    else if s[0] == '"' then [s[0]] + Repair(s[1..], false)
    else if s[0] == '\\' then
      var n := EscapeLength(s);
      if n > 0 then s[..n] + Repair(s[n..], true) else "\\\\" + Repair(s[1..], true)
    else (if IsControl(s[0]) then EscapeControl(s[0]) else [s[0]]) + Repair(s[1..], true)
  }

  function RepairJson(s: string): string {
    Repair(s, false)
  }

  lemma RepairEscapedHead(s: string, n: nat)
    requires s != [] && s[0] == '\\' && EscapeLength(s) == n
    ensures n > 0 ==> Repair(s, true) == s[..n] + Repair(s[n..], true)
    ensures n == 0 ==> Repair(s, true) == "\\\\" + Repair(s[1..], true)
  {
  }

  lemma RepairPlainHead(s: string, inString: bool)
    requires s != [] && !(inString && s[0] == '\\')
    ensures !inString ==> Repair(s, false) == [s[0]] + Repair(s[1..], s[0] == '"')
    ensures inString && s[0] == '"' ==> Repair(s, true) == [s[0]] + Repair(s[1..], false)
    ensures inString && s[0] != '"' ==>
              Repair(s, true) == (if IsControl(s[0]) then EscapeControl(s[0]) else [s[0]]) + Repair(s[1..], true)
  {
  }

  /** The arm for a backslash inside a string. */
  method RepairEscape(chars: string, index: nat) returns (piece: string, next: nat)
    requires index < |chars| && chars[index] == '\\'
    ensures index < next <= |chars|
    ensures Repair(chars[index..], true) == piece + Repair(chars[next..], true)
  {
    ghost var rest := chars[index..];
    if index + 1 < |chars| && chars[index + 1] == 'u' {
      var digits := chars[index + 2..if index + 6 <= |chars| then index + 6 else |chars|];
      assert |rest| >= 6 ==> digits == rest[2..6];
      if |digits| == 4 && IsHex(digits[0]) && IsHex(digits[1]) && IsHex(digits[2]) && IsHex(digits[3]) {
        piece, next := "\\u" + digits, index + 6;
        assert rest[..6] == piece && rest[6..] == chars[next..];
        RepairEscapedHead(rest, 6);
      } else {
        piece, next := "\\\\", index + 1;
        assert rest[1..] == chars[next..];
        RepairEscapedHead(rest, 0);
      }
    } else if index + 1 < |chars| && IsSimpleEscape(chars[index + 1]) {
      piece, next := ['\\', chars[index + 1]], index + 2;
      assert rest[..2] == piece && rest[2..] == chars[next..];
      RepairEscapedHead(rest, 2);
    } else {
      piece, next := "\\\\", index + 1;
      assert rest[1..] == chars[next..];
      RepairEscapedHead(rest, 0);
    }
  }

  /** The scanning loop, with its index and flag. */
  method RepairJsonLoop(chars: string) returns (repaired: string)
    ensures repaired == RepairJson(chars)
  {
    hide Repair, EscapeControl;
    repaired := [];
    var inString := false;
    var index := 0;
    assert chars[0..] == chars;
    while index < |chars|
      invariant 0 <= index <= |chars|
      invariant repaired + Repair(chars[index..], inString) == RepairJson(chars)
    {
      var ch := chars[index];
      var piece;
      if inString && ch == '\\' {
        piece, index := RepairEscape(chars, index);
      } else {
        RepairPlainHead(chars[index..], inString);
        assert chars[index..][1..] == chars[index + 1..];
        piece := if inString && IsControl(ch) then EscapeControl(ch) else [ch];
        if ch == '"' {
          inString := !inString;
        }
        index := index + 1;
      }
      assert repaired + (piece + Repair(chars[index..], inString)) ==
             (repaired + piece) + Repair(chars[index..], inString);
      repaired := repaired + piece;
    }
    assert chars[index..] == [];
    RepairNothing(inString);
  }

  lemma RepairNothing(inString: bool)
    ensures Repair([], inString) == []
  {
  }

  // ---------------------------------------------------------------------
  // Meaning
  // ---------------------------------------------------------------------

  /** What a JSON scanner sees: characters outside strings, the delimiting
      quotes, and the UTF-16 code units of string contents. */
  datatype Token = Outside(c: char) | Open | Close | Unit(u: nat)

  function UnitTokens(us: seq<nat>): seq<Token> {
    if us == [] then [] else [Unit(us[0])] + UnitTokens(us[1..])
  }

  function Prepend(ts: seq<Token>, rest: Option<seq<Token>>): Option<seq<Token>> {
    if rest.None? then None else Some(ts + rest.value)
  }

  /** RFC 8259 section 7 decoding: a raw control character in a string, or a
      backslash that starts no valid escape, is an error. */
  function StrictDecode(s: string, inString: bool): Option<seq<Token>> {
    if s == [] then Some([])
    else if !inString then
      Prepend([if s[0] == '"' then Open else Outside(s[0])], StrictDecode(s[1..], s[0] == '"'))
    else if s[0] == '"' then Prepend([Close], StrictDecode(s[1..], false))
    else if s[0] == '\\' then
      var n := EscapeLength(s);
      if n > 0 then Prepend([Unit(EscapeUnit(s))], StrictDecode(s[n..], true)) else None
    else if IsControl(s[0]) then None
    else Prepend(UnitTokens(Units(s[0])), StrictDecode(s[1..], true))
  }

  /** The intended reading of malformed text: a stray backslash and a raw
      control character stand for themselves. */
  function LenientDecode(s: string, inString: bool): seq<Token> {
    if s == [] then []
    else if !inString then
      [if s[0] == '"' then Open else Outside(s[0])] + LenientDecode(s[1..], s[0] == '"')
    else if s[0] == '"' then [Close] + LenientDecode(s[1..], false)
    else if s[0] == '\\' && EscapeLength(s) > 0 then
      [Unit(EscapeUnit(s))] + LenientDecode(s[EscapeLength(s)..], true)
    else UnitTokens(Units(s[0])) + LenientDecode(s[1..], true)
  }

  /** Every in-string backslash of `s` starts a valid escape, and no string of
      `s` holds a raw control character. */
  predicate EscapeClean(s: string, inString: bool) {
    s == [] ||
    if !inString then EscapeClean(s[1..], s[0] == '"')
    else if s[0] == '"' then EscapeClean(s[1..], false)
    else if s[0] == '\\' then EscapeLength(s) > 0 && EscapeClean(s[EscapeLength(s)..], true)
    else !IsControl(s[0]) && EscapeClean(s[1..], true)
  }

  /** A valid escape keeps its length and its unit whatever follows it. */
  lemma EscapeIsLocal(e: string, t: string)
    requires e != [] && e[0] == '\\' && EscapeLength(e) == |e|
    ensures EscapeLength(e + t) == |e| && EscapeUnit(e + t) == EscapeUnit(e)
    ensures (e + t)[|e|..] == t && (e + t)[..|e|] == e
  {
  }

  lemma ControlEscape(c: char)
    requires IsControl(c)
    ensures var e := EscapeControl(c);
            e != [] && e[0] == '\\' && EscapeLength(e) == |e| && EscapeUnit(e) == c as int
  {
  }

  lemma DecodeEscape(e: string, t: string)
    requires e != [] && e[0] == '\\' && EscapeLength(e) == |e|
    ensures StrictDecode(e + t, true) == Prepend([Unit(EscapeUnit(e))], StrictDecode(t, true))
  {
    EscapeIsLocal(e, t);
    hide EscapeLength, EscapeUnit;
  }

  lemma DecodeStrayBackslash(t: string)
    ensures StrictDecode("\\\\" + t, true) == Prepend(UnitTokens(Units('\\')), StrictDecode(t, true))
  {
    DecodeEscape("\\\\", t);
    assert UnitTokens([92]) == [Unit(92)];
  }

  lemma DecodeControl(c: char, t: string)
    requires IsControl(c)
    ensures StrictDecode(EscapeControl(c) + t, true) == Prepend(UnitTokens(Units(c)), StrictDecode(t, true))
  {
    ControlEscape(c);
    DecodeEscape(EscapeControl(c), t);
    assert UnitTokens([c as int]) == [Unit(c as int)];
  }

  lemma {:induction false} RepairDecodes(s: string, inString: bool)
    ensures StrictDecode(Repair(s, inString), inString) == Some(LenientDecode(s, inString))
  {
    hide EscapeUnit, EscapeControl, Units, UnitTokens;
    if s == [] {
    } else if !inString {
      RepairDecodes(s[1..], s[0] == '"');
      var t := Repair(s[1..], s[0] == '"');
      assert ([s[0]] + t)[1..] == t;
    } else if s[0] == '"' {
      RepairDecodes(s[1..], false);
      var t := Repair(s[1..], false);
      assert ([s[0]] + t)[1..] == t;
    } else if s[0] == '\\' && EscapeLength(s) > 0 {
      var n := EscapeLength(s);
      RepairDecodes(s[n..], true);
      assert s[..n] + s[n..] == s;
      EscapeIsLocal(s[..n], s[n..]);
      DecodeEscape(s[..n], Repair(s[n..], true));
    } else if s[0] == '\\' {
      RepairDecodes(s[1..], true);
      DecodeStrayBackslash(Repair(s[1..], true));
    } else {
      RepairDecodes(s[1..], true);
      var t := Repair(s[1..], true);
      if IsControl(s[0]) {
        DecodeControl(s[0], t);
      } else {
        assert ([s[0]] + t)[1..] == t;
      }
    }
  }

  /** Repair preserves meaning: strictly decoding the repaired text gives what
      leniently decoding the original gives, for every text, with every
      character outside strings and every delimiter in place. */
  lemma RepairPreservesMeaning(s: string)
    ensures StrictDecode(RepairJson(s), false) == Some(LenientDecode(s, false))
  {
    RepairDecodes(s, false);
  }

  /** The clean texts are the ones the strict decoder reads, and on them the
      two readings agree. */
  lemma {:induction false} CleanIsStrictlyReadable(s: string, inString: bool)
    ensures EscapeClean(s, inString) <==> StrictDecode(s, inString).Some?
    ensures EscapeClean(s, inString) ==> StrictDecode(s, inString) == Some(LenientDecode(s, inString))
  {
    if s == [] {
    } else if !inString {
      CleanIsStrictlyReadable(s[1..], s[0] == '"');
    } else if s[0] == '"' {
      CleanIsStrictlyReadable(s[1..], false);
    } else if s[0] == '\\' {
      if EscapeLength(s) > 0 {
        CleanIsStrictlyReadable(s[EscapeLength(s)..], true);
      }
    } else {
      CleanIsStrictlyReadable(s[1..], true);
    }
  }

  lemma {:induction false} RepairNeverShrinks(s: string, inString: bool)
    ensures |Repair(s, inString)| >= |s|
  {
    if s == [] {
    } else if !inString {
      RepairNeverShrinks(s[1..], s[0] == '"');
    } else if s[0] == '\\' && EscapeLength(s) > 0 {
      RepairNeverShrinks(s[EscapeLength(s)..], true);
    } else {
      RepairNeverShrinks(s[1..], s[0] != '"');
    }
  }

  lemma {:induction false} RepairFixesExactlyClean(s: string, inString: bool)
    ensures Repair(s, inString) == s <==> EscapeClean(s, inString)
  {
    if s == [] {
    } else if inString && s[0] == '\\' {
      var n := EscapeLength(s);
      if n > 0 {
        RepairFixesExactlyClean(s[n..], true);
        assert s == s[..n] + s[n..];
        assert (s[..n] + Repair(s[n..], true))[n..] == Repair(s[n..], true);
      } else {
        RepairNeverShrinks(s[1..], true);
        assert |Repair(s, true)| > |s|;
      }
    } else if inString && s[0] != '"' && IsControl(s[0]) {
      RepairNeverShrinks(s[1..], true);
      assert |Repair(s, true)| > |s|;
    } else {
      var now := if inString then s[0] != '"' else s[0] == '"';
      RepairFixesExactlyClean(s[1..], now);
      assert s == [s[0]] + s[1..];
      assert ([s[0]] + Repair(s[1..], now))[1..] == Repair(s[1..], now);
    }
  }

  /** Repair changes a text exactly when the text is not escape-clean; its
      output always is; so it is idempotent. */
  lemma RepairIsCleaning(s: string)
    ensures EscapeClean(RepairJson(s), false)
    ensures RepairJson(s) == s <==> EscapeClean(s, false)
    ensures RepairJson(RepairJson(s)) == RepairJson(s)
  {
    RepairDecodes(s, false);
    CleanIsStrictlyReadable(RepairJson(s), false);
    RepairFixesExactlyClean(s, false);
    RepairFixesExactlyClean(RepairJson(s), false);
  }
}
