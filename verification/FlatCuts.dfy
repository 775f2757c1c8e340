/** Every cut of the compact serialisation of an object of string members,
    read through `complete_partial_json` and `parse_streaming_json`. */
module FlatCuts {
  import opened JsonText
  import opened JsonGrammar
  import opened PartialJson
  import opened PartialJsonShape
  import opened StreamingParse
  import opened FlatFields

  // ---------------------------------------------------------------------
  // Cutting the member list
  // ---------------------------------------------------------------------

  /** The cut after `k` characters of the members is neither right after a
      member comma nor inside a `\uXXXX`. */
  predicate CutReads(fs: seq<Field>, k: nat) {
    fs != [] &&
    var w := |FieldText(fs[0])|;
    if k <= w || |fs| == 1 then k > 0 && FieldCutReads(fs[0], k)
    else CutReads(fs[1..], k - w - 1)
  }

  /** The member list previewed by that cut. */
  function Preview(fs: seq<Field>, k: nat): seq<Member> {
    if fs == [] || k == 0 then []
    else
      var w := |FieldText(fs[0])|;
      if k <= w || |fs| == 1 then [CutMember(fs[0], k)]
      else [CutMember(fs[0], w)] + Preview(fs[1..], k - w - 1)
  }

  lemma ReadThenComma(f: Field, x: string)
    ensures ReadMembers(FieldText(f) + "," + x) ==
            var r := ReadMembers(x); if r.Ok? then Ok([CutMember(f, |FieldText(f)|)] + r.value, r.rest) else Fail
  {
    hide ReadKey, ReadValue, Quoted;
    assert FieldText(f) + "," + x == Quoted(f.key) + ":" + (Quoted(f.value) + ("," + x));
    ReadQuotedKey(f.key, Quoted(f.value) + ("," + x));
    ReadQuotedValue(f.value, "," + x);
    assert ("," + x)[1..] == x;
  }

  lemma NoMemberAtBrace()
    ensures ReadMembers("}").Fail?
  {
    assert SkipSpace("}") == "}";
  }

  lemma CutField(st: Scan, f: Field, k: nat) returns (due: Expect)
    requires AtMember(st) && 0 < k <= |FieldText(f)|
    ensures var b := FieldText(f)[..k];
            var now := Feed(st, b);
            InObject(now, due) && (!now.inString && due == ValueDue ==> b[k - 1] == ':') &&
            ReadMembers(Ending(b, now, due)) == if FieldCutReads(f, k) then Ok([CutMember(f, k)], []) else Fail
  {
    hide ReadMembers, Feed, EscapeText;
    var q := |Quoted(f.key)|;
    if k < q {
      CutInKey(st, f, k);
      due := KeyOrValue;
    } else if k <= q + 1 {
      CutBeforeValue(st, f, k);
      due := if k == q then Colon else ValueDue;
    } else if k < |FieldText(f)| {
      CutInValue(st, f, k);
      due := ValueDue;
    } else {
      CutAfterField(st, f, []);
      assert FieldText(f) + [] == FieldText(f) == FieldText(f)[..k];
      FeedNothing(Advance(st, k).(frames := [Frame(ObjectKind, AfterValue)]));
      due := AfterValue;
    }
  }

  lemma AfterComma(st: Scan, f: Field, t: string) returns (next: Scan)
    requires AtMember(st)
    ensures AtMember(next) && Feed(st, FieldText(f) + "," + t) == Feed(next, t)
  {
    hide FieldText, Feed;
    assert FieldText(f) + "," + t == FieldText(f) + ("," + t);
    CutAfterField(st, f, "," + t);
    var ended := Advance(st, |FieldText(f)|).(frames := [Frame(ObjectKind, AfterValue)]);
    FeedCons(ended, ',', t);
    next := Next(ended, ',');
  }

  lemma EndingAfter(a: string, b: string, st: Scan, due: Expect)
    requires b != []
    ensures Ending(a + b, st, due) == a + Ending(b, st, due)
  {
    assert (a + b)[..|a + b| - 1] == a + b[..|b| - 1];
  }

  lemma {:induction false} CutFields(st: Scan, fs: seq<Field>, k: nat) returns (due: Expect)
    requires AtMember(st) && fs != [] && 0 < k <= |FieldsText(fs)|
    ensures var b := FieldsText(fs)[..k];
            var now := Feed(st, b);
            InObject(now, due) && (!now.inString && due == ValueDue ==> b[k - 1] == ':') &&
            ReadMembers(Ending(b, now, due)) == if CutReads(fs, k) then Ok(Preview(fs, k), []) else Fail
    decreases fs
  {
    hide ReadMembers, FieldText, FieldCutReads, CutMember, Feed;
    var w := |FieldText(fs[0])|;
    if k <= w {
      due := CutField(st, fs[0], k);
      assert FieldsText(fs)[..k] == FieldText(fs[0])[..k];
    } else {
      var rest := FieldsText(fs[1..]);
      assert FieldsText(fs) == FieldText(fs[0]) + "," + rest;
      var b := FieldsText(fs)[..k];
      var b2 := rest[..k - w - 1];
      assert b == FieldText(fs[0]) + "," + b2;
      var next := AfterComma(st, fs[0], b2);
      if k == w + 1 {
        FeedNothing(next);
        due := KeyOrValue;
        assert Ending(b, next, due) == FieldText(fs[0]) + "," + "}";
        ReadThenComma(fs[0], "}");
        NoMemberAtBrace();
      } else {
        due := CutFields(next, fs[1..], k - w - 1);
        var now := Feed(next, b2);
        EndingAfter(FieldText(fs[0]) + ",", b2, now, due);
        ReadThenComma(fs[0], Ending(b2, now, due));
      }
    }
  }

  // ---------------------------------------------------------------------
  // The whole object
  // ---------------------------------------------------------------------

  lemma OneFrame(text: string, f: Frame)
    ensures CloseAll(text, [f]) == Fill(text, f) + [Closer(f.kind)]
  {
    assert [f][..0] == [];
    assert CloseAll(Fill(text, f) + [Closer(f.kind)], []) == Fill(text, f) + [Closer(f.kind)];
  }

  lemma CompleteInString(cut: string, due: Expect)
    requires InObject(Run(cut), due) && Run(cut).inString && cut != []
    ensures var body := if Run(cut).escaping then cut[..|cut| - 1] else cut;
            Complete(cut) == body + "\"" + if due == KeyOrValue then ": null}" else "}"
  {
    hide Run, CloseAll, Fill;
    RunBounds(cut);
    var body := if Run(cut).escaping then cut[..|cut| - 1] else cut;
    var g := Frame(ObjectKind, if due == KeyOrValue then Colon else AfterValue);
    assert CloseString([Frame(ObjectKind, due)]) == [g];
    var text := body + "\"";
    assert Finished(cut) == (text, [g]);
    OneFrame(text, g);
    FillNullOrNothing(text, g);
  }

  lemma FillNullOrNothing(text: string, g: Frame)
    requires g.kind == ObjectKind && (g.due == Colon || g.due == AfterValue)
    ensures Fill(text, g) + [Closer(g.kind)] == text + if g.due == Colon then ": null}" else "}"
  {
    assert ": null}" == ": null" + "}";
    assert (text + ": null") + "}" == text + (": null" + "}");
  }

  lemma CompleteOutside(cut: string, due: Expect)
    requires InObject(Run(cut), due) && !Run(cut).inString
    requires due == ValueDue ==> cut != [] && cut[|cut| - 1] == ':'
    ensures Complete(cut) == cut + match due case Colon => ": null}" case ValueDue => "null}" case _ => "}"
  {
    hide Run, CloseAll, TrimCommas;
    RunBounds(cut);
    assert Finished(cut) == (cut, [Frame(ObjectKind, due)]);
    OneFrame(cut, Frame(ObjectKind, due));
    assert due == ValueDue ==> TrimEnd(cut) == cut;
    assert ": null}" == ": null" + "}" && "null}" == "null" + "}";
  }

  lemma CompleteOneInString(b: string, due: Expect)
    requires InObject(Run("{" + b), due) && Run("{" + b).inString && b != []
    ensures Complete("{" + b) == "{" + Ending(b, Run("{" + b), due)
  {
    hide Run, Complete;
    CompleteInString("{" + b, due);
    assert ("{" + b)[..|b|] == "{" + b[..|b| - 1];
  }

  lemma CompleteOneOutside(b: string, due: Expect)
    requires InObject(Run("{" + b), due) && !Run("{" + b).inString
    requires due == ValueDue ==> b != [] && b[|b| - 1] == ':'
    ensures Complete("{" + b) == "{" + Ending(b, Run("{" + b), due)
  {
    hide Run, Complete;
    var cut := "{" + b;
    assert b != [] ==> cut[|cut| - 1] == b[|b| - 1];
    CompleteOutside(cut, due);
  }

  lemma CompleteOneObject(b: string, due: Expect)
    requires InObject(Run("{" + b), due) && (Run("{" + b).inString ==> b != [])
    requires !Run("{" + b).inString && due == ValueDue ==> b != [] && b[|b| - 1] == ':'
    ensures Complete("{" + b) == "{" + Ending(b, Run("{" + b), due)
  {
    hide Run, Complete;
    if Run("{" + b).inString {
      CompleteOneInString(b, due);
    } else {
      CompleteOneOutside(b, due);
    }
  }

  lemma ReadObject(x: string)
    requires x != [] && x[0] == '"'
    ensures Parse("{" + x) ==
            var r := ReadMembers(x); if r.Ok? && SkipSpace(r.rest) == [] then Some(JObject(r.value)) else None
  {
    hide ReadMembers, ReadString, NumberLength;
    assert ("{" + x)[1..] == x;
    assert SkipSpace(x) == x;
  }

  lemma ReadEmptyObject()
    ensures Parse("{" + "}") == Some(JObject([]))
  {
    hide ReadMembers, ReadString, NumberLength;
    assert ("{" + "}")[1..] == "}";
    assert "}"[1..] == [];
  }

  lemma FieldsStartWithQuote(fs: seq<Field>)
    requires fs != []
    ensures FieldsText(fs) != [] && FieldsText(fs)[0] == '"'
  {
    assert FieldText(fs[0])[0] == '"';
  }

  lemma RunOpenBrace(b: string)
    ensures AtMember(Run("{")) && Run("{" + b) == Feed(Run("{"), b)
  {
    RunAppend("{", b);
    assert "{"[..0] == [];
  }

  /** Completion of a cut of the members is accepted exactly when the cut is
      neither right after a member comma nor inside a `\uXXXX`, and then it
      holds the previewed members. */
  lemma CompletedCut(fs: seq<Field>, k: nat)
    requires k <= |FieldsText(fs)|
    ensures var cut := "{" + FieldsText(fs)[..k];
            && Run(cut).frames != []
            && Parse(Complete(cut)) == if k == 0 || CutReads(fs, k) then Some(JObject(Preview(fs, k))) else None
  {
    hide ReadMembers, Run, Feed, FieldsText, Complete, Parse;
    var b := FieldsText(fs)[..k];
    RunOpenBrace(b);
    if k == 0 {
      assert b == [];
      FeedNothing(Run("{"));
      CompleteOneObject(b, KeyOrValue);
      ReadEmptyObject();
      assert Ending(b, Run("{" + b), KeyOrValue) == "}";
    } else {
      if fs == [] {
        NoFields();
      }
      var due := CutFields(Run("{"), fs, k);
      CompleteOneObject(b, due);
      var ending := Ending(b, Run("{" + b), due);
      FieldsStartWithQuote(fs);
      assert b[0] == '"';
      assert !(|b| == 1 && Run("{" + b).escaping) by {
        if |b| == 1 {
          OneQuote();
          assert b == "\"";
        }
      }
      assert ending[0] == '"';
      ReadObject(ending);
    }
  }

  lemma NoFields()
    ensures FieldsText([]) == []
  {
  }

  lemma OneQuote()
    ensures !Run("{" + "\"").escaping
  {
    RunOpenBrace("\"");
    assert "\""[1..] == [];
    assert Feed(Run("{"), "\"") == Feed(Next(Run("{"), '"'), []);
  }

  /** What the client shows while a flat object streams in: for every cut of
      the members that is not right after a member comma and not inside a
      `\uXXXX`, the preview is the complete members followed by at most one
      cut member. */
  lemma StreamedPreview(fs: seq<Field>, k: nat)
    requires k <= |FieldsText(fs)| && (k == 0 || CutReads(fs, k))
    ensures ParseStreaming("{" + FieldsText(fs)[..k]) == JObject(Preview(fs, k))
  {
    hide Run, FieldsText, Complete, Parse, Preview, CutReads;
    var cut := "{" + FieldsText(fs)[..k];
    CompletedCut(fs, k);
    OpenTextIsRejected(cut);
    assert cut[0] == '{' && !IsWhitespace(cut[0]);
  }

  function AllMembers(fs: seq<Field>): seq<Member> {
    seq(|fs|, i requires 0 <= i < |fs| => Member(Utf16(fs[i].key), JString(Utf16(fs[i].value))))
  }

  lemma {:induction false} ReadAllFields(fs: seq<Field>)
    requires fs != []
    ensures ReadMembers(FieldsText(fs) + "}") == Ok(AllMembers(fs), [])
  {
    hide ReadMembers, FieldText;
    if |fs| == 1 {
      RunOpenBrace([]);
      CutAfterField(Run("{"), fs[0], []);
      WholeMember(fs[0]);
      assert AllMembers(fs) == [CutMember(fs[0], |FieldText(fs[0])|)];
    } else {
      ReadAllFields(fs[1..]);
      assert FieldsText(fs) + "}" == FieldText(fs[0]) + "," + (FieldsText(fs[1..]) + "}");
      ReadThenComma(fs[0], FieldsText(fs[1..]) + "}");
      WholeMember(fs[0]);
      assert AllMembers(fs) == [AllMembers(fs)[0]] + AllMembers(fs[1..]);
    }
  }

  lemma WholeMember(f: Field)
    ensures CutMember(f, |FieldText(f)|) == Member(Utf16(f.key), JString(Utf16(f.value)))
  {
    hide Utf16, EscapeText;
  }

  /** Round trip: the whole text is accepted with exactly its members, and no
      tolerant stage touches it. */
  lemma WholeObjectReads(fs: seq<Field>)
    ensures Parse(ObjectText(fs)) == Some(JObject(AllMembers(fs)))
    ensures Complete(ObjectText(fs)) == ObjectText(fs)
    ensures ParseStreaming(ObjectText(fs)) == JObject(AllMembers(fs))
  {
    hide ReadMembers, Parse, Complete, ParseStreaming;
    if fs == [] {
      assert ObjectText(fs) == "{" + "}" && AllMembers(fs) == [];
      ReadEmptyObject();
    } else {
      ReadAllFields(fs);
      FieldsStartWithQuote(fs);
      assert ObjectText(fs) == "{" + (FieldsText(fs) + "}");
      ReadObject(FieldsText(fs) + "}");
    }
    AcceptedTextIsComplete(ObjectText(fs));
    CompleteDocumentIsItself(ObjectText(fs));
  }

  // ---------------------------------------------------------------------
  // The shape of a preview, and its growth
  // ---------------------------------------------------------------------

  /** A member under way: its value is still null, or a prefix of the final
      string under the final key. */
  predicate IsCutOf(m: Member, f: Field) {
    if m.value == JNull then m.key <= Utf16(f.key)
    else m.key == Utf16(f.key) && m.value.JString? && m.value.units <= Utf16(f.value)
  }

  lemma Utf16Prefix(s: string, i: nat)
    requires i <= |s|
    ensures Utf16(s[..i]) <= Utf16(s)
  {
    assert s == s[..i] + s[i..];
    Utf16Append(s[..i], s[i..]);
  }

  lemma CutMemberShape(f: Field, k: nat)
    ensures IsCutOf(CutMember(f, k), f)
    ensures k >= |FieldText(f)| ==> CutMember(f, k) == Member(Utf16(f.key), JString(Utf16(f.value)))
  {
    hide Utf16, EscapeText;
    if 0 < k < |Quoted(f.key)| {
      Utf16Prefix(f.key, WholeChars(f.key, k - 1));
    } else if k == 0 {
      Utf16Prefix(f.key, 0);
    } else if |Quoted(f.key)| + 2 <= k {
      Utf16Prefix(f.value, WholeChars(f.value, k - |Quoted(f.key)| - 2));
    }
  }

  lemma FirstOfAll(fs: seq<Field>, j: nat)
    requires 0 < j <= |fs|
    ensures AllMembers(fs[..j]) == [AllMembers(fs[..1])[0]] + AllMembers(fs[1..][..j - 1])
  {
    assert fs[..j][1..] == fs[1..][..j - 1];
  }

  /** What a preview of the later fields and its `i` complete members make of
      the preview after one more complete member. */
  lemma ShapeAfter(fs: seq<Field>, head: Member, later: seq<Member>, i: nat)
    requires fs != [] && i < |fs| && i <= |later| <= i + 1
    requires [head] == AllMembers(fs[..1]) && later[..i] == AllMembers(fs[1..][..i])
    ensures ([head] + later)[..i + 1] == AllMembers(fs[..i + 1])
  {
    FirstOfAll(fs, i + 1);
    assert ([head] + later)[..i + 1] == [head] + later[..i];
  }

  /** A preview is the complete members followed by at most one cut member. */
  lemma {:induction false} PreviewShape(fs: seq<Field>, k: nat) returns (j: nat)
    requires k <= |FieldsText(fs)|
    ensures j <= |fs| && j <= |Preview(fs, k)| <= j + 1 && Preview(fs, k)[..j] == AllMembers(fs[..j])
    ensures |Preview(fs, k)| == j + 1 ==> j < |fs| && IsCutOf(Preview(fs, k)[j], fs[j])
  {
    hide CutMember, FieldText, IsCutOf;
    if fs == [] || k == 0 {
      j := 0;
    } else if k <= |FieldText(fs[0])| {
      CutMemberShape(fs[0], k);
      j := 0;
    } else {
      var w := |FieldText(fs[0])|;
      CutMemberShape(fs[0], w);
      assert |fs| > 1 && |FieldsText(fs)| == w + 1 + |FieldsText(fs[1..])|;
      var i := PreviewShape(fs[1..], k - w - 1);
      j := i + 1;
      ShapeAfter(fs, CutMember(fs[0], w), Preview(fs[1..], k - w - 1), i);
    }
  }

  predicate MemberGrows(a: Member, b: Member) {
    a == b
    || (a.value == JNull && a.key <= b.key)
    || (a.key == b.key && a.value.JString? && b.value.JString? && a.value.units <= b.value.units)
  }

  /** Nothing shown is withdrawn: every member but the last stays as it is, and
      the last one grows. */
  predicate Grows(a: seq<Member>, b: seq<Member>) {
    a == [] ||
    (|a| <= |b| && a[..|a| - 1] == b[..|a| - 1] && MemberGrows(a[|a| - 1], b[|a| - 1]))
  }

  lemma {:induction false} WholeCharsGrow(s: string, e: nat, e': nat)
    requires e <= e'
    ensures WholeChars(s, e) <= WholeChars(s, e')
  {
    hide EscapeChar;
    if s != [] && e >= |EscapeChar(s[0])| {
      WholeCharsGrow(s[1..], e - |EscapeChar(s[0])|, e' - |EscapeChar(s[0])|);
    }
  }

  lemma PrefixOfPrefix(s: string, i: nat, j: nat)
    requires i <= j <= |s|
    ensures Utf16(s[..i]) <= Utf16(s[..j])
  {
    assert s[..j][..i] == s[..i];
    Utf16Prefix(s[..j], i);
  }

  lemma CutMemberGrows(f: Field, k: nat, k': nat)
    requires 0 < k <= k'
    ensures MemberGrows(CutMember(f, k), CutMember(f, k'))
  {
    hide Utf16, EscapeText;
    var q := |Quoted(f.key)|;
    assert f.key[..|f.key|] == f.key && f.value[..|f.value|] == f.value;
    if k < q {
      var i := WholeChars(f.key, k - 1);
      PrefixOfPrefix(f.key, i, |f.key|);
      if k' < q {
        WholeCharsGrow(f.key, k - 1, k' - 1);
        PrefixOfPrefix(f.key, i, WholeChars(f.key, k' - 1));
      }
    } else if q + 2 <= k < |FieldText(f)| {
      var i := WholeChars(f.value, k - q - 2);
      PrefixOfPrefix(f.value, i, |f.value|);
      if k' < |FieldText(f)| {
        WholeCharsGrow(f.value, k - q - 2, k' - q - 2);
        PrefixOfPrefix(f.value, i, WholeChars(f.value, k' - q - 2));
      }
    }
  }

  lemma GrowsAfter(head: Member, a: seq<Member>, b: seq<Member>)
    requires Grows(a, b)
    ensures Grows([head] + a, [head] + b)
  {
    if a != [] {
      assert ([head] + a)[..|a|] == [head] + a[..|a| - 1];
      assert ([head] + b)[..|a|] == [head] + b[..|a| - 1];
    } else {
      assert ([head] + b)[..0] == [];
    }
  }

  /** As more of the text arrives the preview only grows. */
  lemma {:induction false} PreviewGrows(fs: seq<Field>, k: nat, k': nat)
    requires k <= k'
    ensures Grows(Preview(fs, k), Preview(fs, k'))
  {
    hide CutMember, FieldText;
    if fs != [] && k > 0 {
      var w := |FieldText(fs[0])|;
      if |fs| == 1 || k' <= w {
        CutMemberGrows(fs[0], k, k');
      } else if k <= w {
        CutMemberGrows(fs[0], k, w);
      } else {
        PreviewGrows(fs[1..], k - w - 1, k' - w - 1);
        GrowsAfter(CutMember(fs[0], w), Preview(fs[1..], k - w - 1), Preview(fs[1..], k' - w - 1));
      }
    }
  }
}
