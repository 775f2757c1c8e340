/** The compact serialisation of an object of string members, and every cut of
    one of its fields: what the scanner holds there, and what the strict
    grammar reads once the cut is completed. */
module FlatFields {
  import opened JsonText
  import opened JsonRepair
  import opened JsonGrammar
  import opened PartialJson
  import opened PartialJsonShape
  import opened StreamingParse

  // ---------------------------------------------------------------------
  // The compact serialisation
  // ---------------------------------------------------------------------

  function EscapeChar(c: char): (e: string)
    ensures |e| == 1 || |e| == 2 || |e| == 6
  {
    if c == '"' then "\\\"" else if c == '\\' then "\\\\" else if IsControl(c) then EscapeControl(c) else [c]
  }

  function EscapeText(s: string): string {
    if s == [] then [] else EscapeChar(s[0]) + EscapeText(s[1..])
  }

  function Quoted(s: string): string {
    "\"" + EscapeText(s) + "\""
  }

  datatype Field = Field(key: string, value: string)

  function FieldText(f: Field): string {
    Quoted(f.key) + ":" + Quoted(f.value)
  }

  function FieldsText(fs: seq<Field>): string {
    if fs == [] then []
    else if |fs| == 1 then FieldText(fs[0])
    else FieldText(fs[0]) + "," + FieldsText(fs[1..])
  }

  function ObjectText(fs: seq<Field>): string {
    "{" + FieldsText(fs) + "}"
  }

  // ---------------------------------------------------------------------
  // Cutting an escaped string
  // ---------------------------------------------------------------------

  /** Characters of `s` whose escape lies within the first `e` characters. */
  function WholeChars(s: string, e: nat): (i: nat)
    ensures i <= |s|
  {
    if s == [] || e < |EscapeChar(s[0])| then 0
    else 1 + WholeChars(s[1..], e - |EscapeChar(s[0])|)
  }

  /** How far the cut at `e` reaches into the escape of the next character. */
  function IntoEscape(s: string, e: nat): nat {
    if s == [] then 0
    else if e < |EscapeChar(s[0])| then e
    else IntoEscape(s[1..], e - |EscapeChar(s[0])|)
  }

  lemma {:induction false} CutEscapedText(s: string, e: nat)
    requires e <= |EscapeText(s)|
    ensures var i, d := WholeChars(s, e), IntoEscape(s, e);
            && (d > 0 ==> i < |s| && d < |EscapeChar(s[i])|)
            && EscapeText(s)[..e] == EscapeText(s[..i]) + if d == 0 then [] else EscapeChar(s[i])[..d]
  {
    hide EscapeChar;
    var i := WholeChars(s, e);
    if s == [] {
    } else if e < |EscapeChar(s[0])| {
      assert s[..0] == [];
    } else {
      var p := |EscapeChar(s[0])|;
      CutEscapedText(s[1..], e - p);
      assert s[1..][..i - 1] == s[..i][1..];
      assert (EscapeChar(s[0]) + EscapeText(s[1..]))[..e] == EscapeChar(s[0]) + EscapeText(s[1..])[..e - p];
    }
  }

  lemma EscapedHead(c: char, t: string)
    ensures ReadString(EscapeChar(c) + t) ==
            var r := ReadString(t); if r.Ok? then Ok(Units(c) + r.value, r.rest) else Fail
    ensures forall st: Scan :: st.inString && !st.escaping ==>
              Feed(st, EscapeChar(c) + t) == Feed(Advance(st, |EscapeChar(c)|), t)
  {
    var e := EscapeChar(c);
    if |e| == 1 {
      assert (e + t)[1..] == t;
      forall st: Scan | st.inString && !st.escaping
        ensures Feed(st, e + t) == Feed(Advance(st, 1), t)
      {
        assert Next(st, c) == Advance(st, 1);
      }
    } else {
      if IsControl(c) {
        ControlEscape(c);
      }
      EscapeIsLocal(e, t);
      assert EscapeUnit(e) == c as int && Units(c) == [c as int];
      forall st: Scan | st.inString && !st.escaping
        ensures Feed(st, e + t) == Feed(Advance(st, |e|), t)
      {
        FeedEscape(st, e + t, |e|);
      }
    }
  }

  lemma {:induction false} ReadEscaped(s: string, t: string)
    ensures ReadString(EscapeText(s) + t) ==
            var r := ReadString(t); if r.Ok? then Ok(Utf16(s) + r.value, r.rest) else Fail
  {
    if s == [] {
      assert EscapeText(s) + t == t;
      assert ReadString(t).Ok? ==> Utf16(s) + ReadString(t).value == ReadString(t).value;
    } else {
      assert EscapeText(s) + t == EscapeChar(s[0]) + (EscapeText(s[1..]) + t);
      EscapedHead(s[0], EscapeText(s[1..]) + t);
      ReadEscaped(s[1..], t);
      hide ReadString, EscapeText, Units;
      var r := ReadString(t);
      if r.Ok? {
        assert Units(s[0]) + (Utf16(s[1..]) + r.value) == Utf16(s) + r.value;
      }
    }
  }

  lemma {:induction false} FeedEscaped(st: Scan, s: string, t: string)
    requires st.inString && !st.escaping
    ensures Feed(st, EscapeText(s) + t) == Feed(Advance(st, |EscapeText(s)|), t)
    decreases s
  {
    hide EscapeChar, Next;
    if s == [] {
      assert EscapeText(s) + t == t;
    } else {
      assert EscapeText(s) + t == EscapeChar(s[0]) + (EscapeText(s[1..]) + t);
      EscapedHead(s[0], EscapeText(s[1..]) + t);
      FeedEscaped(Advance(st, |EscapeChar(s[0])|), s[1..], t);
    }
  }

  lemma FeedCons(st: Scan, c: char, t: string)
    ensures Feed(st, [c] + t) == Feed(Next(st, c), t)
  {
    hide Next;
    assert ([c] + t)[1..] == t;
  }

  lemma FeedNothing(st: Scan)
    ensures Feed(st, []) == st
  {
  }

  /** The scanner over a cut string body: inside the string, and right after a
      backslash exactly when the cut is one character into an escape. */
  lemma FeedCutString(st: Scan, s: string, e: nat)
    requires st.inString && !st.escaping && e <= |EscapeText(s)|
    ensures Feed(st, EscapeText(s)[..e]) == Advance(st, e).(escaping := IntoEscape(s, e) == 1)
  {
    CutEscapedText(s, e);
    var i, d := WholeChars(s, e), IntoEscape(s, e);
    var whole := EscapeText(s[..i]);
    var piece := if d == 0 then [] else EscapeChar(s[i])[..d];
    assert e == |whole + piece| == |whole| + d;
    FeedEscaped(st, s[..i], piece);
    var at := Advance(st, |whole|);
    if d > 0 {
      assert piece[0] == '\\';
      var st1 := Next(at, piece[0]);
      assert st1 == Advance(at, 1).(escaping := true);
      assert Feed(at, piece) == Feed(st1, piece[1..]);
      if d > 1 {
        assert |EscapeChar(s[i])| == 6;
        var st2 := Next(st1, piece[1]);
        assert Feed(st1, piece[1..]) == Feed(st2, piece[1..][1..]);
        FeedPlain(st2, piece[1..][1..]);
      }
    }
  }

  lemma ReadClosing(t: string)
    ensures ReadString("\"" + t) == Ok([], t)
  {
    assert ("\"" + t)[1..] == t;
  }

  lemma BrokenEscape(c: char, d: nat, t: string)
    requires 1 < d < |EscapeChar(c)|
    ensures ReadString(EscapeChar(c)[..d] + "\"" + t).Fail?
  {
    var piece := EscapeChar(c)[..d];
    assert |EscapeChar(c)| == 6 && piece[0] == '\\' && piece[1] == 'u';
    assert (piece + "\"" + t)[d] == '"';
    assert EscapeLength(piece + "\"" + t) == 0;
  }

  /** Reading the closed cut: the whole characters, unless the cut is inside a
      `\uXXXX`. */
  lemma ReadCutString(s: string, e: nat, t: string)
    requires e <= |EscapeText(s)|
    ensures var d := IntoEscape(s, e);
            var body := EscapeText(s)[..if d == 1 then e - 1 else e];
            ReadString(body + "\"" + t) == if d <= 1 then Ok(Utf16(s[..WholeChars(s, e)]), t) else Fail
  {
    hide ReadString, EscapeText, EscapeChar, Utf16;
    CutEscapedText(s, e);
    var i, d := WholeChars(s, e), IntoEscape(s, e);
    var whole := EscapeText(s[..i]);
    var body := EscapeText(s)[..if d == 1 then e - 1 else e];
    if d <= 1 {
      assert d == 1 ==> |EscapeText(s)[..e]| == |whole| + 1 && body == EscapeText(s)[..e][..e - 1];
      assert body == whole;
      ReadClosing(t);
      assert body + "\"" + t == whole + ("\"" + t);
      ReadEscaped(s[..i], "\"" + t);
      assert Utf16(s[..i]) + [] == Utf16(s[..i]);
    } else {
      var piece := EscapeChar(s[i])[..d];
      assert body == whole + piece;
      assert whole + piece + "\"" + t == whole + (piece + "\"" + t);
      ReadEscaped(s[..i], piece + "\"" + t);
      BrokenEscape(s[i], d, t);
    }
  }

  // ---------------------------------------------------------------------
  // Cutting one field
  // ---------------------------------------------------------------------

  /** Inside one object, at the start of a member. */
  predicate AtMember(st: Scan) {
    Calm(st) && st.literal.None? && st.frames == [Frame(ObjectKind, KeyOrValue)]
  }

  /** The scanner somewhere inside the members of one object. */
  predicate InObject(st: Scan, due: Expect) {
    st.literal.None? && st.frames == [Frame(ObjectKind, due)] && (st.escaping ==> st.inString)
  }

  /** What completion makes of the cut body `b` of one open object. */
  function Ending(b: string, st: Scan, due: Expect): string
    requires st.escaping ==> b != []
  {
    if st.inString then
      (if st.escaping then b[..|b| - 1] else b) + "\"" + if due == KeyOrValue then ": null}" else "}"
    else b + match due
             case Colon => ": null}"
             case ValueDue => "null}"
             case _ => "}"
  }

  /** The ending of a cut inside a string: what precedes the string, the body
      without a dangling backslash, the closing quote and the rest. */
  lemma EndingInString(b: string, st: Scan, due: Expect, before: string, body: string)
    requires st.inString && (st.escaping ==> b != [])
    requires (if st.escaping then b[..|b| - 1] else b) == before + ("\"" + body)
    ensures Ending(b, st, due) ==
            before + ("\"" + (body + "\"" + if due == KeyOrValue then ": null}" else "}"))
  {
    var kept := if st.escaping then b[..|b| - 1] else b;
    var rest := if due == KeyOrValue then ": null}" else "}";
    assert kept + "\"" + rest == before + ("\"" + (body + "\"" + rest));
  }

  /** The cut of a field after `k` characters is not inside a `\uXXXX`. */
  predicate FieldCutReads(f: Field, k: nat) {
    var q := |Quoted(f.key)|;
    if k < q then k == 0 || IntoEscape(f.key, k - 1) <= 1
    else if k < q + 2 || k >= |FieldText(f)| then true
    else IntoEscape(f.value, k - q - 2) <= 1
  }

  /** The member a field cut after `k > 0` characters previews. */
  function CutMember(f: Field, k: nat): Member {
    var q := |Quoted(f.key)|;
    if k < q then Member(Utf16(f.key[..if k == 0 then 0 else WholeChars(f.key, k - 1)]), JNull)
    else if k < q + 2 then Member(Utf16(f.key), JNull)
    else if k >= |FieldText(f)| then Member(Utf16(f.key), JString(Utf16(f.value)))
    else Member(Utf16(f.key), JString(Utf16(f.value[..WholeChars(f.value, k - q - 2)])))
  }

  lemma ReadKeyOf(x: string, u: seq<nat>, y: string)
    ensures ReadString(x) == Ok(u, ":" + y) ==> ReadKey("\"" + x) == Ok(u, y)
    ensures ReadString(x).Fail? ==> ReadKey("\"" + x).Fail?
  {
    hide ReadString;
    assert ("\"" + x)[1..] == x;
    assert (":" + y)[1..] == y;
  }

  lemma ReadQuotedKey(key: string, y: string)
    ensures ReadKey(Quoted(key) + ":" + y) == Ok(Utf16(key), y)
  {
    var t := "\"" + (":" + y);
    assert Quoted(key) + ":" + y == "\"" + (EscapeText(key) + t);
    ReadEscaped(key, t);
    assert t[1..] == ":" + y;
    assert ReadString(t) == Ok([], ":" + y);
    assert Utf16(key) + [] == Utf16(key);
    ReadKeyOf(EscapeText(key) + t, Utf16(key), y);
  }

  lemma ReadStringValue(x: string)
    ensures ReadValue("\"" + x) ==
            var r := ReadString(x); if r.Ok? then Ok(JString(r.value), r.rest) else Fail
  {
    hide ReadString, NumberLength;
    assert ("\"" + x)[1..] == x;
  }

  lemma ReadQuotedValue(v: string, t: string)
    ensures ReadValue(Quoted(v) + t) == Ok(JString(Utf16(v)), t)
  {
    assert Quoted(v) + t == "\"" + (EscapeText(v) + ("\"" + t));
    ReadStringValue(EscapeText(v) + ("\"" + t));
    ReadEscaped(v, "\"" + t);
    assert ("\"" + t)[1..] == t;
    assert Utf16(v) + [] == Utf16(v);
  }

  lemma ReadNull()
    ensures ReadValue("null}") == ReadValue(" null}") == Ok(JNull, "}")
  {
    hide ReadString, NumberLength;
    var t := "null}";
    assert SkipSpace(" null}") == SkipSpace(" null}"[1..]) && " null}"[1..] == t;
    assert "null" <= t && t[4..] == "}";
  }

  lemma LastMember(s: string, u: seq<nat>, y: string, v: Json)
    requires ReadKey(s) == Ok(u, y) && ReadValue(y) == Ok(v, "}")
    ensures ReadMembers(s) == Ok([Member(u, v)], [])
  {
    hide ReadKey, ReadValue;
    assert "}"[1..] == [];
  }

  /** The scanner after a key and after its colon. */
  lemma FeedQuotedKey(st: Scan, key: string, t: string)
    requires AtMember(st)
    ensures var q := |Quoted(key)|;
            Feed(st, Quoted(key) + t) == Feed(Advance(st, q).(frames := [Frame(ObjectKind, Colon)]), t)
  {
    var e := EscapeText(key);
    assert Quoted(key) + t == "\"" + (e + ("\"" + t));
    var st1 := Next(st, '"');
    assert ("\"" + (e + ("\"" + t)))[1..] == e + ("\"" + t);
    FeedEscaped(st1, key, "\"" + t);
    var st2 := Advance(st1, |e|);
    assert ("\"" + t)[1..] == t;
    assert Next(st2, '"') == Advance(st, |Quoted(key)|).(frames := [Frame(ObjectKind, Colon)]);
  }

  lemma FeedKeyColon(st: Scan, key: string, t: string)
    requires AtMember(st)
    ensures var q := |Quoted(key)|;
            Feed(st, Quoted(key) + ":" + t) == Feed(Advance(st, q + 1).(frames := [Frame(ObjectKind, ValueDue)]), t)
  {
    assert Quoted(key) + ":" + t == Quoted(key) + (":" + t);
    FeedQuotedKey(st, key, ":" + t);
    var st1 := Advance(st, |Quoted(key)|).(frames := [Frame(ObjectKind, Colon)]);
    assert (":" + t)[1..] == t;
    assert Next(st1, ':') == Advance(st, |Quoted(key)| + 1).(frames := [Frame(ObjectKind, ValueDue)]);
  }

  lemma FeedCutKey(st: Scan, key: string, e: nat)
    requires AtMember(st) && e <= |EscapeText(key)|
    ensures var now := Feed(st, "\"" + EscapeText(key)[..e]);
            InObject(now, KeyOrValue) && now.inString && now.escaping == (IntoEscape(key, e) == 1)
  {
    var cut := EscapeText(key)[..e];
    var st1 := Next(st, '"');
    assert st1 == Advance(st, 1).(inString := true);
    assert ("\"" + cut)[1..] == cut;
    FeedCutString(st1, key, e);
  }

  lemma ReadNullMember(x: string, u: seq<nat>)
    ensures ReadString(x) == Ok(u, ": null}") ==> ReadMembers("\"" + x) == Ok([Member(u, JNull)], [])
    ensures ReadString(x).Fail? ==> ReadMembers("\"" + x).Fail?
  {
    assert ": null}" == ":" + " null}";
    ReadKeyOf(x, u, " null}");
    hide ReadKey, ReadValue, ReadString;
    if ReadString(x) == Ok(u, ": null}") {
      ReadNull();
      LastMember("\"" + x, u, " null}", JNull);
    }
  }

  lemma ReadCutKey(key: string, e: nat)
    requires e <= |EscapeText(key)|
    ensures var d := IntoEscape(key, e);
            var body := EscapeText(key)[..if d == 1 then e - 1 else e];
            ReadMembers("\"" + (body + "\"" + ": null}")) ==
            if d <= 1 then Ok([Member(Utf16(key[..WholeChars(key, e)]), JNull)], []) else Fail
  {
    hide ReadMembers, ReadString, EscapeText;
    ReadCutString(key, e, ": null}");
    var body := EscapeText(key)[..if IntoEscape(key, e) == 1 then e - 1 else e];
    ReadNullMember(body + "\"" + ": null}", Utf16(key[..WholeChars(key, e)]));
  }

  lemma CutKeyText(f: Field, k: nat)
    requires 0 < k < |Quoted(f.key)|
    ensures k - 1 <= |EscapeText(f.key)| && FieldText(f)[..k] == "\"" + EscapeText(f.key)[..k - 1]
  {
    hide EscapeText;
    assert FieldText(f) == Quoted(f.key) + (":" + Quoted(f.value));
    assert FieldText(f)[..k] == Quoted(f.key)[..k];
  }

  /** Cut inside the key. */
  lemma CutInKey(st: Scan, f: Field, k: nat)
    requires AtMember(st) && 0 < k < |Quoted(f.key)|
    ensures var b := FieldText(f)[..k];
            var now := Feed(st, b);
            InObject(now, KeyOrValue) && now.inString &&
            ReadMembers(Ending(b, now, KeyOrValue)) == if FieldCutReads(f, k) then Ok([CutMember(f, k)], []) else Fail
  {
    hide ReadMembers, Feed, EscapeText;
    var e := k - 1;
    var b := FieldText(f)[..k];
    CutKeyText(f, k);
    FeedCutKey(st, f.key, e);
    ReadCutKey(f.key, e);
    CutEscapedText(f.key, e);
    var d := IntoEscape(f.key, e);
    var body := EscapeText(f.key)[..if d == 1 then e - 1 else e];
    assert b == "\"" + EscapeText(f.key)[..e];
    assert d == 1 ==> b[..k - 1] == "\"" + body;
    EndingInString(b, Feed(st, b), KeyOrValue, [], body);
    assert [] + ("\"" + (body + "\"" + ": null}")) == "\"" + (body + "\"" + ": null}");
    hide Ending, Quoted;
  }

  /** Cut right after the key, or right after its colon. */
  lemma CutBeforeValue(st: Scan, f: Field, k: nat)
    requires AtMember(st) && |Quoted(f.key)| <= k <= |Quoted(f.key)| + 1
    ensures k <= |FieldText(f)|
    ensures var b := FieldText(f)[..k];
            var now := Feed(st, b);
            var due := if k == |Quoted(f.key)| then Colon else ValueDue;
            InObject(now, due) && Calm(now) && (due == ValueDue ==> b[k - 1] == ':') &&
            ReadMembers(Ending(b, now, due)) == Ok([CutMember(f, k)], [])
  {
    hide ReadMembers, ReadKey, ReadValue, Feed, EscapeText;
    var q := |Quoted(f.key)|;
    var b := FieldText(f)[..k];
    ReadNull();
    FeedNothing(Advance(st, q).(frames := [Frame(ObjectKind, Colon)]));
    FeedNothing(Advance(st, q + 1).(frames := [Frame(ObjectKind, ValueDue)]));
    if k == q {
      assert b == Quoted(f.key) + [];
      FeedQuotedKey(st, f.key, []);
      var ending := Ending(b, Feed(st, b), Colon);
      assert ending == Quoted(f.key) + ":" + " null}";
      ReadQuotedKey(f.key, " null}");
      LastMember(ending, Utf16(f.key), " null}", JNull);
    } else {
      assert b == Quoted(f.key) + ":" + [];
      FeedKeyColon(st, f.key, []);
      var ending := Ending(b, Feed(st, b), ValueDue);
      assert ending == Quoted(f.key) + ":" + "null}";
      ReadQuotedKey(f.key, "null}");
      LastMember(ending, Utf16(f.key), "null}", JNull);
    }
  }

  lemma FeedCutValue(st: Scan, key: string, value: string, e: nat)
    requires AtMember(st) && e <= |EscapeText(value)|
    ensures var b := Quoted(key) + ":" + ("\"" + EscapeText(value)[..e]);
            var now := Feed(st, b);
            InObject(now, ValueDue) && now.inString && now.escaping == (IntoEscape(value, e) == 1)
  {
    var cut := EscapeText(value)[..e];
    FeedKeyColon(st, key, "\"" + cut);
    var st1 := Advance(st, |Quoted(key)| + 1).(frames := [Frame(ObjectKind, ValueDue)]);
    var st2 := Next(st1, '"');
    assert st2 == Advance(st1, 1).(inString := true);
    assert ("\"" + cut)[1..] == cut;
    FeedCutString(st2, value, e);
  }

  lemma ReadCutValue(key: string, value: string, e: nat)
    requires e <= |EscapeText(value)|
    ensures var d := IntoEscape(value, e);
            var body := EscapeText(value)[..if d == 1 then e - 1 else e];
            var text := Quoted(key) + ":" + ("\"" + (body + "\"" + "}"));
            ReadMembers(text) ==
            if d <= 1 then Ok([Member(Utf16(key), JString(Utf16(value[..WholeChars(value, e)])))], []) else Fail
  {
    var d := IntoEscape(value, e);
    var body := EscapeText(value)[..if d == 1 then e - 1 else e];
    var valueText := "\"" + (body + "\"" + "}");
    ReadQuotedKey(key, valueText);
    ReadStringValue(body + "\"" + "}");
    ReadCutString(value, e, "}");
    hide ReadKey, ReadValue, ReadString;
    if d <= 1 {
      LastMember(Quoted(key) + ":" + valueText, Utf16(key), valueText,
                 JString(Utf16(value[..WholeChars(value, e)])));
    }
  }

  lemma CutValueText(f: Field, k: nat)
    requires |Quoted(f.key)| + 2 <= k < |FieldText(f)|
    ensures var e := k - |Quoted(f.key)| - 2;
            e <= |EscapeText(f.value)|
            && FieldText(f)[..k] == Quoted(f.key) + ":" + ("\"" + EscapeText(f.value)[..e])
  {
    hide EscapeText;
    var e := k - |Quoted(f.key)| - 2;
    assert FieldText(f) == (Quoted(f.key) + ":") + Quoted(f.value);
    assert Quoted(f.value)[..1 + e] == "\"" + EscapeText(f.value)[..e];
  }

  /** Cut inside the value. */
  lemma CutInValue(st: Scan, f: Field, k: nat)
    requires AtMember(st) && |Quoted(f.key)| + 2 <= k < |FieldText(f)|
    ensures var b := FieldText(f)[..k];
            var now := Feed(st, b);
            InObject(now, ValueDue) && now.inString &&
            ReadMembers(Ending(b, now, ValueDue)) == if FieldCutReads(f, k) then Ok([CutMember(f, k)], []) else Fail
  {
    hide ReadMembers, Feed, EscapeText;
    var e := k - |Quoted(f.key)| - 2;
    var b := FieldText(f)[..k];
    CutValueText(f, k);
    FeedCutValue(st, f.key, f.value, e);
    ReadCutValue(f.key, f.value, e);
    CutEscapedText(f.value, e);
    hide Quoted;
    var d := IntoEscape(f.value, e);
    var body := EscapeText(f.value)[..if d == 1 then e - 1 else e];
    assert d == 1 ==> b[..k - 1] == Quoted(f.key) + ":" + ("\"" + body);
    EndingInString(b, Feed(st, b), ValueDue, Quoted(f.key) + ":", body);
  }

  lemma FeedQuotedValue(st: Scan, value: string, t: string)
    requires Calm(st) && st.literal.None? && st.frames == [Frame(ObjectKind, ValueDue)]
    ensures var after := Advance(st, |Quoted(value)|).(frames := [Frame(ObjectKind, AfterValue)]);
            Feed(st, Quoted(value) + t) == Feed(after, t)
  {
    var v := EscapeText(value);
    assert Quoted(value) + t == "\"" + (v + ("\"" + t));
    var st1 := Advance(st, 1).(inString := true);
    FeedCons(st, '"', v + ("\"" + t));
    FeedEscaped(st1, value, "\"" + t);
    FeedCons(Advance(st1, |v|), '"', t);
    hide Feed, EscapeText;
    assert Next(st, '"') == st1;
    assert Next(Advance(st1, |v|), '"') == Advance(st, |Quoted(value)|).(frames := [Frame(ObjectKind, AfterValue)]);
  }

  /** Cut right after the value. */
  lemma CutAfterField(st: Scan, f: Field, t: string)
    requires AtMember(st)
    ensures var now := Advance(st, |FieldText(f)|).(frames := [Frame(ObjectKind, AfterValue)]);
            Feed(st, FieldText(f) + t) == Feed(now, t)
    ensures ReadMembers(FieldText(f) + "}") == Ok([CutMember(f, |FieldText(f)|)], [])
  {
    hide Feed, ReadMembers, ReadKey, ReadValue, Quoted;
    assert FieldText(f) + t == Quoted(f.key) + ":" + (Quoted(f.value) + t);
    FeedKeyColon(st, f.key, Quoted(f.value) + t);
    FeedQuotedValue(Advance(st, |Quoted(f.key)| + 1).(frames := [Frame(ObjectKind, ValueDue)]), f.value, t);
    assert FieldText(f) + "}" == Quoted(f.key) + ":" + (Quoted(f.value) + "}");
    ReadQuotedKey(f.key, Quoted(f.value) + "}");
    ReadQuotedValue(f.value, "}");
    LastMember(FieldText(f) + "}", Utf16(f.key), Quoted(f.value) + "}", JString(Utf16(f.value)));
  }
}
