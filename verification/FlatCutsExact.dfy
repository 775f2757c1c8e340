/** The cuts that break a preview: right after a member comma, and inside a
    `\uXXXX`. */
module FlatCutsExact {
  import opened JsonText
  import opened JsonRepair
  import opened JsonGrammar
  import opened PartialJson
  import opened PartialJsonShape
  import opened StreamingParse
  import opened FlatFields
  import opened FlatCuts

  lemma {:induction false} CleanEscaped(s: string, t: string)
    ensures EscapeClean(EscapeText(s) + t, true) == EscapeClean(t, true)
  {
    if s == [] {
      assert EscapeText(s) + t == t;
    } else {
      var e := EscapeChar(s[0]);
      var rest := EscapeText(s[1..]) + t;
      assert EscapeText(s) + t == e + rest;
      CleanEscaped(s[1..], t);
      if |e| == 1 {
        assert (e + rest)[1..] == rest;
      } else {
        if IsControl(s[0]) {
          ControlEscape(s[0]);
        }
        EscapeIsLocal(e, rest);
      }
    }
  }

  lemma CleanQuoted(s: string, t: string)
    ensures EscapeClean(Quoted(s) + t, false) == EscapeClean(t, false)
  {
    var tail := "\"" + t;
    assert Quoted(s) + t == "\"" + (EscapeText(s) + tail);
    assert ("\"" + (EscapeText(s) + tail))[1..] == EscapeText(s) + tail;
    CleanEscaped(s, tail);
    assert tail[1..] == t;
  }

  lemma CleanField(f: Field, t: string)
    ensures EscapeClean(FieldText(f) + t, false) == EscapeClean(t, false)
  {
    var v := Quoted(f.value) + t;
    assert FieldText(f) + t == Quoted(f.key) + (":" + v);
    CleanQuoted(f.key, ":" + v);
    assert (":" + v)[1..] == v;
    CleanQuoted(f.value, t);
  }

  /** The position right after the comma that ends the first `j` members. */
  function AfterCommaAt(fs: seq<Field>, j: nat): nat
    requires 0 < j < |fs|
  {
    |FieldText(fs[0])| + 1 + if j == 1 then 0 else AfterCommaAt(fs[1..], j - 1)
  }

  lemma {:induction false} CommaCut(fs: seq<Field>, j: nat)
    requires 0 < j < |fs|
    ensures var k := AfterCommaAt(fs, j);
            && 0 < k <= |FieldsText(fs)| && !CutReads(fs, k)
            && EscapeClean(FieldsText(fs)[..k], false)
  {
    hide FieldText, FieldCutReads;
    var k := AfterCommaAt(fs, j);
    var w := |FieldText(fs[0])|;
    var later := if j == 1 then 0 else AfterCommaAt(fs[1..], j - 1);
    if j > 1 {
      CommaCut(fs[1..], j - 1);
    }
    var rest := FieldsText(fs[1..])[..later];
    assert FieldsText(fs)[..k] == FieldText(fs[0]) + ("," + rest);
    CleanField(fs[0], "," + rest);
    assert ("," + rest)[1..] == rest;
  }

  /** Right after a member comma the preview falls back to the empty object. */
  lemma CommaCutFallsBack(fs: seq<Field>, j: nat)
    requires 0 < j < |fs|
    ensures AfterCommaAt(fs, j) <= |FieldsText(fs)|
    ensures ParseStreaming("{" + FieldsText(fs)[..AfterCommaAt(fs, j)]) == EMPTY_OBJECT
  {
    hide Run, FieldsText, Complete, Parse, Preview, CutReads, AfterCommaAt;
    var k := AfterCommaAt(fs, j);
    CommaCut(fs, j);
    var cut := "{" + FieldsText(fs)[..k];
    CompletedCut(fs, k);
    OpenTextIsRejected(cut);
    RepairFixesExactlyClean(cut, false);
    assert cut[1..] == FieldsText(fs)[..k];
    assert cut[0] == '{' && !IsWhitespace(cut[0]);
  }

  /** Repairing a string cut inside a `\uXXXX` turns the cut escape into the
      characters that spell it. */
  lemma {:induction false} RepairEscaped(s: string, t: string)
    ensures Repair(EscapeText(s) + t, true) == EscapeText(s) + Repair(t, true)
  {
    hide Repair, EscapeChar;
    if s == [] {
      assert EscapeText(s) + t == t;
    } else {
      var e := EscapeChar(s[0]);
      var rest := EscapeText(s[1..]);
      assert (e + rest) + t == e + (rest + t);
      RepairEscapedChar(s[0], rest + t);
      RepairEscaped(s[1..], t);
      assert e + (rest + Repair(t, true)) == (e + rest) + Repair(t, true);
    }
  }

  lemma RepairEscapedChar(c: char, t: string)
    ensures Repair(EscapeChar(c) + t, true) == EscapeChar(c) + Repair(t, true)
  {
    var e := EscapeChar(c);
    if |e| == 1 {
      assert (e + t)[1..] == t;
    } else {
      if IsControl(c) {
        ControlEscape(c);
      }
      EscapeIsLocal(e, t);
    }
  }

  lemma {:induction false} RepairPlain(t: string)
    requires forall i :: 0 <= i < |t| ==> t[i] != '"' && t[i] != '\\' && !IsControl(t[i])
    ensures Repair(t, true) == t == EscapeText(t)
  {
    if t != [] {
      RepairPlain(t[1..]);
      assert t == [t[0]] + t[1..];
    }
  }

  lemma {:induction false} EscapeTextAppend(a: string, b: string)
    ensures EscapeText(a + b) == EscapeText(a) + EscapeText(b)
  {
    hide EscapeChar;
    if a == [] {
      assert a + b == b;
    } else {
      EscapeTextAppend(a[1..], b);
      assert (a + b)[1..] == a[1..] + b;
      var e := EscapeChar(a[0]);
      assert e + (EscapeText(a[1..]) + EscapeText(b)) == (e + EscapeText(a[1..])) + EscapeText(b);
    }
  }

  /** The characters shown for a string cut inside a `\uXXXX`. */
  function RawCut(s: string, e: nat): string {
    var i, d := WholeChars(s, e), IntoEscape(s, e);
    if i < |s| && d <= |EscapeChar(s[i])| then s[..i] + EscapeChar(s[i])[..d] else s
  }

  lemma RepairCutString(s: string, e: nat)
    requires e <= |EscapeText(s)| && IntoEscape(s, e) > 1
    ensures Repair(EscapeText(s)[..e], true) == EscapeText(RawCut(s, e))
    ensures |RawCut(s, e)| > WholeChars(s, e) && Utf16(RawCut(s, e)) != Utf16(s[..WholeChars(s, e)])
  {
    CutEscapedText(s, e);
    var i, d := WholeChars(s, e), IntoEscape(s, e);
    var piece := EscapeChar(s[i])[..d];
    assert |EscapeChar(s[i])| == 6;
    RepairCutEscape(s[i], d);
    hide Repair, EscapeText, EscapeChar, WholeChars, IntoEscape;
    RepairEscaped(s[..i], piece);
    EscapeTextAppend(s[..i], piece);
    Utf16Append(s[..i], piece);
  }

  lemma RepairCutEscape(c: char, d: nat)
    requires 1 < d < |EscapeChar(c)| == 6
    ensures var piece := EscapeChar(c)[..d]; Repair(piece, true) == EscapeText(piece) && |Utf16(piece)| > 0
  {
    var piece := EscapeChar(c)[..d];
    assert piece[0] == '\\' && piece[1] == 'u' && EscapeLength(piece) == 0;
    RepairPlain(piece[1..]);
    assert piece == ['\\'] + piece[1..];
    assert EscapeText(piece) == "\\\\" + EscapeText(piece[1..]);
  }

  lemma RepairOpenString(t: string)
    ensures Repair("\"" + t, false) == "\"" + Repair(t, true)
  {
    assert ("\"" + t)[1..] == t;
  }

  lemma RepairCloseString(t: string)
    ensures Repair("\"" + t, true) == "\"" + Repair(t, false)
  {
    assert ("\"" + t)[1..] == t;
  }

  lemma RepairQuoted(s: string, t: string)
    ensures Repair(Quoted(s) + t, false) == Quoted(s) + Repair(t, false)
  {
    hide Repair, EscapeText;
    var e := EscapeText(s);
    var tail := "\"" + t;
    assert Quoted(s) + t == "\"" + (e + tail);
    RepairOpenString(e + tail);
    RepairEscaped(s, tail);
    RepairCloseString(t);
    assert "\"" + (e + ("\"" + Repair(t, false))) == Quoted(s) + Repair(t, false);
  }

  lemma RepairOutside(c: char, t: string)
    requires c != '"'
    ensures Repair([c] + t, false) == [c] + Repair(t, false)
  {
    assert ([c] + t)[1..] == t;
  }

  lemma {:induction false} CutAtEnd(s: string)
    ensures WholeChars(s, |EscapeText(s)|) == |s| && IntoEscape(s, |EscapeText(s)|) == 0
  {
    hide EscapeChar;
    if s != [] {
      CutAtEnd(s[1..]);
    }
  }

  /** The member a field cut inside a `\uXXXX` previews: the cut escape is
      spelled out. */
  function SpelledMember(f: Field, k: nat): Member {
    var q := |Quoted(f.key)|;
    if k < q then Member(Utf16(RawCut(f.key, if k == 0 then 0 else k - 1)), JNull)
    else Member(Utf16(f.key), JString(Utf16(RawCut(f.value, if k < q + 2 then 0 else k - q - 2))))
  }

  /** The cut after `k` characters of the members is inside a `\uXXXX`. */
  predicate CutInEscape(fs: seq<Field>, k: nat) {
    fs != [] &&
    var w := |FieldText(fs[0])|;
    if k <= w then k > 0 && !FieldCutReads(fs[0], k) else CutInEscape(fs[1..], k - w - 1)
  }

  function Spelled(fs: seq<Field>, k: nat): seq<Member> {
    if fs == [] then []
    else
      var w := |FieldText(fs[0])|;
      if k <= w then [SpelledMember(fs[0], k)] else [CutMember(fs[0], w)] + Spelled(fs[1..], k - w - 1)
  }

  /** A field cut inside a `\uXXXX`, once repaired, is another field cut at
      the end of one of its strings. */
  lemma RepairCutKey(f: Field, k: nat) returns (g: Field, m: nat)
    requires 0 < k < |Quoted(f.key)| && !FieldCutReads(f, k)
    ensures 0 < m < |Quoted(g.key)| && FieldCutReads(g, m) && CutMember(g, m) != CutMember(f, k)
    ensures CutMember(g, m) == SpelledMember(f, k)
    ensures Repair(FieldText(f)[..k], false) == FieldText(g)[..m]
  {
    hide Repair, WholeChars, IntoEscape, Utf16, RawCut;
    var e := k - 1;
    g := Field(RawCut(f.key, e), f.value);
    m := 1 + |EscapeText(g.key)|;
    assert FieldText(f)[..k] == "\"" + EscapeText(f.key)[..e];
    RepairOpenString(EscapeText(f.key)[..e]);
    RepairCutString(f.key, e);
    CutAtEnd(g.key);
    assert g.key[..|g.key|] == g.key;
    assert FieldText(g)[..m] == "\"" + EscapeText(g.key);
  }

  lemma RepairCutValue(f: Field, k: nat) returns (g: Field, m: nat)
    requires |Quoted(f.key)| + 2 <= k < |FieldText(f)| && !FieldCutReads(f, k)
    ensures |Quoted(g.key)| + 2 <= m < |FieldText(g)| && FieldCutReads(g, m) && CutMember(g, m) != CutMember(f, k)
    ensures CutMember(g, m) == SpelledMember(f, k)
    ensures Repair(FieldText(f)[..k], false) == FieldText(g)[..m]
  {
    hide Repair, WholeChars, IntoEscape, Utf16, RawCut, EscapeText;
    var q := |Quoted(f.key)|;
    var e := k - q - 2;
    g := Field(f.key, RawCut(f.value, e));
    m := q + 2 + |EscapeText(g.value)|;
    var cut := EscapeText(f.value)[..e];
    assert FieldText(f)[..k] == Quoted(f.key) + ([':'] + ("\"" + cut));
    RepairQuoted(f.key, [':'] + ("\"" + cut));
    RepairOutside(':', "\"" + cut);
    RepairOpenString(cut);
    RepairCutString(f.value, e);
    CutAtEnd(g.value);
    assert g.value[..|g.value|] == g.value;
    assert FieldText(g)[..m] == Quoted(f.key) + ([':'] + ("\"" + EscapeText(g.value)));
  }

  /** A cut in later fields, seen with one more field before them. */
  lemma OneMoreField(f: Field, fs: seq<Field>, j: nat)
    requires fs != [] && 0 < j <= |FieldsText(fs)|
    ensures var (all, w) := ([f] + fs, |FieldText(f)|);
            var k := w + 1 + j;
            && k <= |FieldsText(all)|
            && FieldsText(all)[..k] == FieldText(f) + ([','] + FieldsText(fs)[..j])
            && (CutReads(all, k) <==> CutReads(fs, j))
            && Preview(all, k) == [CutMember(f, w)] + Preview(fs, j)
            && Preview(all, k)[1..] == Preview(fs, j)
  {
    hide FieldText, FieldCutReads, CutMember;
    assert ([f] + fs)[1..] == fs;
    assert FieldsText([f] + fs) == FieldText(f) + ([','] + FieldsText(fs));
  }

  /** The repair of an unreadable cut is itself (after a comma), or a readable
      cut of another object whose preview differs. */
  lemma {:induction false} RepairCut(fs: seq<Field>, k: nat) returns (gs: seq<Field>, m: nat, same: bool)
    requires fs != [] && 0 < k <= |FieldsText(fs)| && !CutReads(fs, k)
    ensures same <==> !CutInEscape(fs, k)
    ensures same ==> Repair(FieldsText(fs)[..k], false) == FieldsText(fs)[..k] && Preview(fs, k) != []
    ensures !same ==>
              && gs != [] && 0 < m <= |FieldsText(gs)| && CutReads(gs, m)
              && Repair(FieldsText(fs)[..k], false) == FieldsText(gs)[..m]
              && Preview(gs, m) != Preview(fs, k) && Preview(gs, m) == Spelled(fs, k)
  {
    hide Repair, FieldText, FieldCutReads, CutMember, SpelledMember;
    var w := |FieldText(fs[0])|;
    if k <= w {
      assert FieldsText(fs)[..k] == FieldText(fs[0])[..k];
      var g, n := RepairCutField(fs[0], k);
      gs, m, same := [g], n, false;
    } else {
      var rest := FieldsText(fs[1..])[..k - w - 1];
      assert FieldsText(fs)[..k] == FieldText(fs[0]) + ([','] + rest);
      RepairField(fs[0], [','] + rest);
      RepairOutside(',', rest);
      if k == w + 1 {
        gs, m, same := [], 0, true;
        RepairNothing(false);
      } else {
        gs, m, same := RepairCut(fs[1..], k - w - 1);
        if !same {
          OneMoreField(fs[0], gs, m);
          OneMoreField(fs[0], fs[1..], k - w - 1);
          assert [fs[0]] + fs[1..] == fs;
          gs, m := [fs[0]] + gs, w + 1 + m;
        }
      }
    }
  }

  lemma RepairField(f: Field, t: string)
    ensures Repair(FieldText(f) + t, false) == FieldText(f) + Repair(t, false)
  {
    hide Repair;
    var v := Quoted(f.value) + t;
    assert FieldText(f) + t == Quoted(f.key) + ([':'] + v);
    RepairQuoted(f.key, [':'] + v);
    RepairOutside(':', v);
    RepairQuoted(f.value, t);
    assert Quoted(f.key) + ([':'] + (Quoted(f.value) + Repair(t, false))) == FieldText(f) + Repair(t, false);
  }

  lemma RepairCutField(f: Field, k: nat) returns (g: Field, m: nat)
    requires 0 < k <= |FieldText(f)| && !FieldCutReads(f, k)
    ensures 0 < m <= |FieldText(g)|
    ensures Repair(FieldText(f)[..k], false) == FieldText(g)[..m]
    ensures FieldCutReads(g, m) && CutMember(g, m) != CutMember(f, k) && CutMember(g, m) == SpelledMember(f, k)
  {
    hide Repair, EscapeText, SpelledMember;
    if k < |Quoted(f.key)| {
      g, m := RepairCutKey(f, k);
    } else {
      g, m := RepairCutValue(f, k);
    }
  }

  /** The preview shown for a cut is the right one exactly when the cut is
      neither right after a member comma nor inside a `\uXXXX`. */
  lemma StreamedPreviewExactly(fs: seq<Field>, k: nat)
    requires k <= |FieldsText(fs)|
    ensures ParseStreaming("{" + FieldsText(fs)[..k]) == JObject(Preview(fs, k)) <==> k == 0 || CutReads(fs, k)
  {
    if k == 0 || CutReads(fs, k) {
      StreamedPreview(fs, k);
    } else {
      hide Run, Feed, FieldsText, Complete, Parse, Preview, CutReads, Repair;
      if fs == [] {
        NoFields();
      }
      var b := FieldsText(fs)[..k];
      var cut := "{" + b;
      CompletedCut(fs, k);
      OpenTextIsRejected(cut);
      assert cut[0] == '{' && !IsWhitespace(cut[0]);
      RepairOutside('{', b);
      var gs, m, same := RepairCut(fs, k);
      if !same {
        CompletedCut(gs, m);
      }
    }
  }

  /** A cut inside a `\uXXXX` is shown spelled out: the repair stage turns the
      cut escape into the characters it is made of. */
  lemma EscapeCutIsSpelled(fs: seq<Field>, k: nat)
    requires k <= |FieldsText(fs)| && CutInEscape(fs, k)
    ensures ParseStreaming("{" + FieldsText(fs)[..k]) == JObject(Spelled(fs, k))
  {
    EscapeCutIsUnreadable(fs, k);
    hide Run, Feed, FieldsText, Complete, Parse, Preview, CutReads, Repair, Spelled, CutInEscape;
    var b := FieldsText(fs)[..k];
    var cut := "{" + b;
    CompletedCut(fs, k);
    OpenTextIsRejected(cut);
    assert cut[0] == '{' && !IsWhitespace(cut[0]);
    RepairOutside('{', b);
    var gs, m, same := RepairCut(fs, k);
    CompletedCut(gs, m);
  }

  lemma {:induction false} EscapeCutIsUnreadable(fs: seq<Field>, k: nat)
    requires k <= |FieldsText(fs)| && CutInEscape(fs, k)
    ensures fs != [] && k > 0 && !CutReads(fs, k)
  {
    hide FieldText, FieldCutReads;
    if k > |FieldText(fs[0])| {
      EscapeCutIsUnreadable(fs[1..], k - |FieldText(fs[0])| - 1);
    }
  }
}
