/** What every cut of a document previews, and exactly which cuts preview
    anything. */
module DocumentPreviews {
  import opened JsonText
  import opened JsonGrammar
  import opened PartialJson
  import opened PartialJsonShape
  import opened FlatFields
  import opened NumberCuts
  import opened NestedCuts
  import opened Documents
  import opened DocumentCuts
  import opened DocumentCompletion

  // ---------------------------------------------------------------------
  // Which cuts read, and as what
  // ---------------------------------------------------------------------

  /** The first item of an array, cut right after its minus: it is trimmed
      away, and the array is empty. */
  predicate FirstMinus(ds: Docs, k: nat) {
    ds.MoreDocs? && ds.head.Num? && LoneMinus(ds.head.text, k)
  }

  /** The cut after `k > 0` characters is accepted: a word must be whole and a
      number more than a minus, and a string must not be cut inside a
      `\uXXXX`; within an object it is, besides, not right after a comma, not
      in or after an unseparated word, and not inside a container. */
  predicate Reads(d: Doc, k: nat) {
    match d
    case Num(text) => !LoneMinus(text, k)
    case Str(s) => k >= |Text(d)| || k == 0 || IntoEscape(s, k - 1) <= 1
    case Arr(items) => k <= 1 || k >= |Text(d)| || FirstMinus(items, k - 1) || DocsRead(items, k - 1)
    case Obj(members) => k <= 1 || k >= |Text(d)| || EntriesRead(members, k - 1)
    case _ => k >= |Text(d)|
  }

  predicate DocsRead(ds: Docs, k: nat) {
    ds.MoreDocs? &&
    var w := |Text(ds.head)|;
    if k <= w then Reads(ds.head, k)
    else k == w + 1 || DocsRead(ds.tail, k - w - 1)
  }

  predicate EntriesRead(es: Entries, k: nat) {
    es.MoreEntries? &&
    var (q, n, w) := (|Quoted(es.key)|, |KeyText(es.key)|, |Text(es.value)|);
    if k < q then k == 0 || IntoEscape(es.key, k - 1) <= 1
    else if k <= n then true
    else if k <= n + w then
      !IsWord(es.value) && (IsContainer(es.value) ==> k == n + w) && Reads(es.value, k - n)
    else k > n + w + 1 && EntriesRead(es.later, k - n - w - 1)
  }

  /** The value previewed: all that is whole, and the cut scalar as far as it
      goes. */
  function Preview(d: Doc, k: nat): Json
    requires 0 < k <= |Text(d)|
  {
    if k == |Text(d)| then JsonOf(d)
    else
      match d
      case Num(text) => JNumber(TrimNumberTail(text[..k]))
      case Str(s) => JString(Utf16(s[..WholeChars(s, k - 1)]))
      case Arr(items) => JArray(if FirstMinus(items, k - 1) then [] else PreviewDocs(items, k - 1))
      case Obj(members) => JObject(PreviewEntries(members, k - 1))
      case _ => JNull
  }

  function PreviewDocs(ds: Docs, k: nat): seq<Json>
    requires k <= |DocsText(ds)|
  {
    if k == 0 || ds.NoDocs? then []
    else
      var w := |Text(ds.head)|;
      DocsCut(ds, k);
      if k <= w then [Preview(ds.head, k)] else [JsonOf(ds.head)] + PreviewDocs(ds.tail, k - w - 1)
  }

  function PreviewEntries(es: Entries, k: nat): seq<Member>
    requires k <= |EntriesText(es)|
  {
    if k == 0 || es.NoEntries? then []
    else
      var (q, n, w) := (|Quoted(es.key)|, |KeyText(es.key)|, |Text(es.value)|);
      EntriesCut(es, k);
      if k < q then [Member(Utf16(es.key[..WholeChars(es.key, k - 1)]), JNull)]
      else if k <= n then [Member(Utf16(es.key), JNull)]
      else if k <= n + w then [Member(Utf16(es.key), Preview(es.value, k - n))]
      else [Member(Utf16(es.key), JsonOf(es.value))] + PreviewEntries(es.later, k - n - w - 1)
  }

  // ---------------------------------------------------------------------
  // Reading the completed text
  // ---------------------------------------------------------------------

  lemma ReadNothing(t: string)
    requires Delimited(t)
    ensures ReadValue(t).Fail?
  {
    hide ReadString, ReadMembers, ReadItems;
    assert "true"[0] == 't' && "false"[0] == 'f' && "null"[0] == 'n';
    assert SkipSpace(t) == t;
    if t != [] {
      NoNumber(t);
    }
  }

  lemma NoNumber(s: string)
    requires s != [] && !IsDigit(s[0]) && s[0] != '-'
    ensures NumberLength(s) == 0
  {
    assert s[0..] == s;
  }

  lemma NotPrefix(w: string, s: string, k: nat)
    requires k < |w| && (k < |s| ==> s[k] != w[k])
    ensures !(w <= s)
  {
  }

  lemma NoWord(s: string)
    requires s != [] && 'a' <= s[0] <= 'z' && !("true" <= s) && !("false" <= s) && !("null" <= s)
    ensures ReadValue(s).Fail?
  {
    hide ReadString, ReadMembers, ReadItems, NumberLength;
    NoNumber(s);
  }

  /** A cut word is none, whatever delimiter or second word follows. */
  lemma ReadCutWord(d: Doc, k: nat, t: string)
    requires IsWord(d) && 0 < k < |Text(d)| && (Delimited(t) || t[0] == 'n')
    ensures ReadValue(Text(d)[..k] + t).Fail?
  {
    hide ReadValue;
    var (w, s) := (Text(d), Text(d)[..k] + t);
    assert s[0] == w[0] && (k < |s| ==> s[k] == t[0]);
    NotPrefix("true", s, if w[0] == 't' then k else 0);
    NotPrefix("false", s, if w[0] == 'f' then k else 0);
    NotPrefix("null", s, if w[0] == 'n' then k else 0);
    NoWord(s);
  }

  lemma ReadClosedString(s: string, k: nat, t: string)
    requires 0 < k < |Quoted(s)|
    ensures ClosedString(s, k) != [] && ClosedString(s, k)[0] == '"'
    ensures ReadString(ClosedString(s, k)[1..] + t) ==
            if IntoEscape(s, k - 1) <= 1 then Ok(Utf16(s[..WholeChars(s, k - 1)]), t) else Fail
  {
    hide ReadString, EscapeText, IntoEscape, WholeChars, Utf16;
    if k == 1 {
      IntoNothing(s);
    }
    var body := EscapeText(s)[..if IntoEscape(s, k - 1) == 1 then k - 2 else k - 1];
    assert ClosedString(s, k)[1..] + t == body + "\"" + t;
    ReadCutString(s, k - 1, t);
  }

  lemma ReadDoneString(s: string, k: nat, t: string)
    requires 0 < k < |Quoted(s)|
    ensures ReadValue(ClosedString(s, k) + t) ==
            if IntoEscape(s, k - 1) <= 1 then Ok(JString(Utf16(s[..WholeChars(s, k - 1)])), t) else Fail
  {
    hide ReadString, ReadValue, ClosedString;
    ReadClosedString(s, k, t);
    var x := ClosedString(s, k)[1..] + t;
    assert ClosedString(s, k) + t == "\"" + x;
    ReadStringValue(x);
  }

  lemma ReadDoneNumber(text: string, k: nat, t: string)
    requires IsNumber(text) && 0 < k <= |text| && Delimited(t)
    ensures ReadValue(TrimNumberTail(text[..k]) + t) ==
            if LoneMinus(text, k) then Fail else Ok(JNumber(TrimNumberTail(text[..k])), t)
  {
    hide ReadValue, IsNumber, TrimNumberTail;
    var m := TrimmedNumber(text, k);
    if m == 0 {
      assert text[..0] + t == t;
      ReadNothing(t);
    } else {
      DigitAfterMinus(text);
      PrefixIsNumber(text, m, t);
      assert text[..m][0] == text[0];
      ReadNumberText(text[..m], t);
    }
  }

  lemma ReadDoneScalar(d: Doc, k: nat, t: string)
    requires Valid(d) && !IsContainer(d) && 0 < k <= |Text(d)| && Delimited(t)
    ensures ReadValue(Done(d, k) + t) == if Reads(d, k) then Ok(Preview(d, k), t) else Fail
  {
    hide ReadValue, IsNumber, TrimNumberTail, IntoEscape, WholeChars, Utf16, Quoted, ClosedString;
    if d.Num? {
      ReadDoneNumber(d.text, k, t);
      WholeNumber(d.text);
      assert k == |d.text| ==> d.text[..k] == d.text;
    } else if d.Str? {
      if k == |Text(d)| {
        ReadQuotedValue(d.s, t);
      } else {
        ReadDoneString(d.s, k, t);
      }
    } else if k == |Text(d)| {
      assert Text(d)[..k] == Text(d);
      ReadWordText(d, t);
    } else {
      ReadCutWord(d, k, t);
    }
  }

  lemma WholeNumber(text: string)
    requires IsNumber(text)
    ensures TrimNumberTail(text) == text && !LoneMinus(text, |text|)
  {
    hide IsNumber;
    DigitAfterMinus(text);
  }

  /** The completed text of a cut that is not buried is read as the preview, or
      not at all. */
  lemma {:induction false} ReadDone(d: Doc, k: nat, t: string)
    requires Valid(d) && 0 < k <= |Text(d)| && !IsBuried(d, k) && Delimited(t)
    ensures ReadValue(Done(d, k) + t) == if Reads(d, k) then Ok(Preview(d, k), t) else Fail
    decreases d, 0
  {
    hide ReadValue, DocsText, EntriesText, DoneDocs, DoneEntries, DocsRead, EntriesRead, PreviewDocs, PreviewEntries;
    if !IsContainer(d) {
      ReadDoneScalar(d, k, t);
    } else if k == |Text(d)| {
      ReadDoc(d, t);
    } else {
      match d
      case Arr(items) => ReadDoneArray(items, k, t);
      case Obj(members) => ReadDoneObject(members, k, t);
    }
  }

  /** The completed items start a value, unless they are trimmed away. */
  lemma DoneDocsStart(ds: Docs, k: nat)
    requires ds.MoreDocs? && ValidDocs(ds) && 0 < k <= |DocsText(ds)|
    ensures if FirstMinus(ds, k) then DoneDocs(ds, k) == []
            else DoneDocs(ds, k) != [] && StartsValue(DoneDocs(ds, k)[0])
  {
    hide TrimNumberTail, IsNumber, EscapeText, DoneEntries;
    DocsCut(ds, k);
    TextStart(ds.head);
    if ds.head.Num? {
      var text := ds.head.text;
      if k <= |text| {
        var m := TrimmedNumber(text, k);
        assert m > 0 ==> text[..m][0] == text[0];
      }
    }
  }

  lemma {:induction false} ReadDoneArray(items: Docs, k: nat, t: string)
    requires ValidDocs(items) && 0 < k < |Text(Arr(items))| && !IsBuried(Arr(items), k) && Delimited(t)
    ensures ReadValue(Done(Arr(items), k) + t) ==
            if Reads(Arr(items), k) then Ok(Preview(Arr(items), k), t) else Fail
    decreases items, 1
  {
    hide ReadValue, ReadItems, DoneDocs, BuriedDocs, DocsText, DocsRead, PreviewDocs;
    ArrayCut(items, k);
    var done := DoneDocs(items, k - 1);
    var x := done + ([']'] + t);
    assert Done(Arr(items), k) + t == ['['] + x;
    assert x[0] == if done == [] then ']' else done[0];
    assert done == [] ==> x[1..] == t;
    if k == 1 {
      NothingDone(items);
    } else {
      NoDocsText(items);
      DoneDocsStart(items, k - 1);
      if !FirstMinus(items, k - 1) {
        ReadDoneDocs(items, k - 1, t);
      }
    }
    ReadArrayText(x);
  }

  lemma NothingDone(items: Docs)
    ensures DoneDocs(items, 0) == [] && PreviewDocs(items, 0) == []
  {
  }

  lemma NoDocsText(items: Docs)
    ensures items.NoDocs? ==> DocsText(items) == []
  {
  }

  lemma {:induction false} ReadDoneDocs(ds: Docs, k: nat, t: string)
    requires ds.MoreDocs? && ValidDocs(ds) && 0 < k <= |DocsText(ds)| && !BuriedDocs(ds, k)
    ensures ReadItems(DoneDocs(ds, k) + ([']'] + t)) == if DocsRead(ds, k) then Ok(PreviewDocs(ds, k), t) else Fail
    decreases ds, 0
  {
    hide ReadValue, ReadItems, Text, Done, Reads, Preview, IsBuried, JsonOf;
    DocsCut(ds, k);
    var w := |Text(ds.head)|;
    var whole := DoneDocs(ds, k) + ([']'] + t);
    if k <= w {
      ReadDone(ds.head, k, [']'] + t);
      if Reads(ds.head, k) {
        LastItem(whole, Preview(ds.head, k), t);
      } else {
        NoItem(whole);
      }
    } else if k == w + 1 {
      ReadDoc(ds.head, [']'] + t);
      LastItem(whole, JsonOf(ds.head), t);
      assert PreviewDocs(ds, k) == [JsonOf(ds.head)];
    } else {
      var rest := DoneDocs(ds.tail, k - w - 1) + ([']'] + t);
      assert whole == Text(ds.head) + ([','] + rest);
      ReadDoc(ds.head, [','] + rest);
      MoreItems(whole, JsonOf(ds.head), rest);
      ReadDoneDocs(ds.tail, k - w - 1, t);
    }
  }

  lemma NoItem(s: string)
    requires ReadValue(s).Fail?
    ensures ReadItems(s).Fail?
  {
  }

  lemma DoneEntriesStart(es: Entries, k: nat)
    requires es.MoreEntries? && 0 < k <= |EntriesText(es)|
    ensures DoneEntries(es, k) != [] && DoneEntries(es, k)[0] == '"'
  {
    hide Text, Done, EscapeText;
    EntriesCut(es, k);
  }

  lemma {:induction false} ReadDoneObject(members: Entries, k: nat, t: string)
    requires ValidEntries(members) && 0 < k < |Text(Obj(members))| && !IsBuried(Obj(members), k) && Delimited(t)
    ensures ReadValue(Done(Obj(members), k) + t) ==
            if Reads(Obj(members), k) then Ok(Preview(Obj(members), k), t) else Fail
    decreases members, 1
  {
    hide ReadValue, ReadMembers, DoneEntries, BuriedEntries, EntriesText, EntriesRead, PreviewEntries;
    ObjectCut(members, k);
    var done := DoneEntries(members, k - 1);
    var x := done + (['}'] + t);
    assert Done(Obj(members), k) + t == ['{'] + x;
    assert x[0] == if done == [] then '}' else done[0];
    assert done == [] ==> x[1..] == t;
    if k == 1 {
      NoEntryDone(members);
    } else {
      NoEntriesText(members);
      DoneEntriesStart(members, k - 1);
      ReadDoneEntries(members, k - 1, t);
    }
    ReadObjectText(x);
  }

  lemma NoEntryDone(members: Entries)
    ensures DoneEntries(members, 0) == [] && PreviewEntries(members, 0) == []
  {
  }

  lemma NoEntriesText(members: Entries)
    ensures members.NoEntries? ==> EntriesText(members) == []
  {
  }

  lemma NoEntry(s: string)
    requires ReadKey(s).Fail? || ReadValue(ReadKey(s).rest).Fail?
    ensures ReadMembers(s).Fail?
  {
    hide ReadKey, ReadValue;
  }

  lemma ReadNullBrace(t: string)
    ensures ReadValue("null" + (['}'] + t)) == ReadValue(" null" + (['}'] + t)) == Ok(JNull, ['}'] + t)
  {
    hide ReadString, ReadMembers, ReadItems, NumberLength;
    var (x, y) := ("null" + (['}'] + t), " null" + (['}'] + t));
    assert y[1..] == x && "null" <= x && x[4..] == ['}'] + t;
    assert SkipSpace(y) == SkipSpace(x) == x;
  }

  /** Cut in a key, right after it, or right after its colon. */
  lemma ReadDoneKey(es: Entries, k: nat, t: string)
    requires es.MoreEntries? && 0 < k <= |KeyText(es.key)| && k <= |EntriesText(es)|
    ensures ReadMembers(DoneEntries(es, k) + (['}'] + t)) ==
            if EntriesRead(es, k) then Ok(PreviewEntries(es, k), t) else Fail
  {
    hide ReadKey, ReadValue, ReadMembers, ReadString, Text, Done, IntoEscape, WholeChars, Utf16, Quoted, ClosedString;
    var (key, q, brace) := (es.key, |Quoted(es.key)|, ['}'] + t);
    var whole := DoneEntries(es, k) + brace;
    ReadNullBrace(t);
    if k < q {
      var y := " null" + brace;
      ReadClosedString(key, k, ":" + y);
      var x := ClosedString(key, k)[1..] + (":" + y);
      assert ": null" == ":" + " null";
      assert whole == "\"" + x;
      var u := Utf16(key[..WholeChars(key, k - 1)]);
      ReadKeyOf(x, u, y);
      if IntoEscape(key, k - 1) <= 1 {
        LastEntry(whole, u, y, JNull, t);
      } else {
        NoEntry(whole);
      }
    } else if k == q {
      assert ": null" == ":" + " null";
      assert whole == KeyText(key) + (" null" + brace);
      ReadKeyText(key, " null" + brace);
      LastEntry(whole, Utf16(key), " null" + brace, JNull, t);
    } else {
      assert whole == KeyText(key) + ("null" + brace);
      ReadKeyText(key, "null" + brace);
      LastEntry(whole, Utf16(key), "null" + brace, JNull, t);
    }
  }

  /** A word as the value of a member is followed by a stray `null`. */
  lemma ReadDoneWord(es: Entries, k: nat, t: string)
    requires es.MoreEntries? && IsWord(es.value) && 0 < k <= |Text(es.value)|
    ensures ReadMembers(KeyText(es.key) + (Text(es.value)[..k] + ("null" + (['}'] + t)))).Fail?
  {
    hide ReadKey, ReadValue, KeyText, Text;
    var rest := "null" + (['}'] + t);
    var y := Text(es.value)[..k] + rest;
    ReadKeyText(es.key, y);
    if k < |Text(es.value)| {
      ReadCutWord(es.value, k, rest);
    } else {
      assert Text(es.value)[..k] == Text(es.value);
      ReadWordText(es.value, rest);
      assert SkipSpace(rest) == rest && rest[0] == 'n';
    }
  }

  lemma {:induction false} ReadDoneMember(es: Entries, k: nat, t: string)
    requires es.MoreEntries? && ValidEntries(es) && k <= |EntriesText(es)| && !BuriedEntries(es, k)
    requires 0 < k - |KeyText(es.key)| <= |Text(es.value)|
    ensures ReadMembers(DoneEntries(es, k) + (['}'] + t)) ==
            if EntriesRead(es, k) then Ok(PreviewEntries(es, k), t) else Fail
    decreases es.value, 1
  {
    hide ReadKey, ReadValue, ReadMembers, Text, KeyText, Done, Reads, Preview, Quoted;
    KeyTextLength(es.key);
    DoneAtMember(es, k);
    hide DoneEntries;
    var (j, brace) := (k - |KeyText(es.key)|, ['}'] + t);
    var whole := DoneEntries(es, k) + brace;
    if IsWord(es.value) {
      DoneWord(es.value, j);
      assert whole == KeyText(es.key) + (Text(es.value)[..j] + ("null" + brace));
      ReadDoneWord(es, j, t);
    } else {
      var y := Done(es.value, j) + brace;
      assert Done(es.value, j) + [] == Done(es.value, j);
      assert whole == KeyText(es.key) + y;
      ReadKeyText(es.key, y);
      WholeIsNotBuried(es.value, j);
      ReadDone(es.value, j, brace);
      if Reads(es.value, j) {
        LastEntry(whole, Utf16(es.key), y, Preview(es.value, j), t);
      } else {
        NoEntry(whole);
      }
    }
  }

  lemma DoneWord(d: Doc, k: nat)
    requires IsWord(d) && 0 < k <= |Text(d)|
    ensures Done(d, k) == Text(d)[..k]
  {
  }

  lemma NoMemberAfterComma(t: string)
    ensures ReadMembers(['}'] + t).Fail?
  {
  }

  lemma {:induction false} ReadDoneEntries(es: Entries, k: nat, t: string)
    requires es.MoreEntries? && ValidEntries(es) && 0 < k <= |EntriesText(es)| && !BuriedEntries(es, k)
    ensures ReadMembers(DoneEntries(es, k) + (['}'] + t)) ==
            if EntriesRead(es, k) then Ok(PreviewEntries(es, k), t) else Fail
    decreases es, 0
  {
    hide ReadKey, ReadValue, ReadMembers, Text, KeyText, Done, Reads, Preview, Quoted, JsonOf;
    EntriesCut(es, k);
    KeyTextLength(es.key);
    var (n, w) := (|KeyText(es.key)|, |Text(es.value)|);
    if k <= n {
      ReadDoneKey(es, k, t);
    } else if k <= n + w {
      ReadDoneMember(es, k, t);
    } else {
      ReadPastEntry(es, k, t);
      if k == n + w + 1 {
        assert DoneEntries(es.later, 0) + (['}'] + t) == ['}'] + t;
        NoMemberAfterComma(t);
      } else {
        ReadDoneEntries(es.later, k - n - w - 1, t);
      }
    }
  }

  lemma ReadPastEntry(es: Entries, k: nat, t: string)
    requires es.MoreEntries? && ValidEntries(es) && k <= |EntriesText(es)|
    requires |KeyText(es.key)| + |Text(es.value)| < k
    ensures var j := k - |KeyText(es.key)| - |Text(es.value)| - 1;
            && j <= |EntriesText(es.later)|
            && var r := ReadMembers(DoneEntries(es.later, j) + (['}'] + t));
               ReadMembers(DoneEntries(es, k) + (['}'] + t)) ==
               if r.Ok? then Ok([Member(Utf16(es.key), JsonOf(es.value))] + r.value, r.rest) else Fail
  {
    hide ReadKey, ReadValue, ReadMembers, Text, KeyText, Done, Quoted, JsonOf, Utf16;
    EntriesCut(es, k);
    KeyTextLength(es.key);
    var j := k - |KeyText(es.key)| - |Text(es.value)| - 1;
    var rest := DoneEntries(es.later, j) + (['}'] + t);
    var y := Text(es.value) + ([','] + rest);
    var whole := DoneEntries(es, k) + (['}'] + t);
    assert whole == KeyText(es.key) + y;
    ReadKeyText(es.key, y);
    ReadDoc(es.value, [','] + rest);
    MoreMembers(whole, Utf16(es.key), y, JsonOf(es.value), rest);
  }

  // ---------------------------------------------------------------------
  // The exact condition
  // ---------------------------------------------------------------------

  lemma {:induction false} BuriedNeverReads(d: Doc, k: nat)
    requires IsBuried(d, k) && Valid(d)
    ensures !Reads(d, k)
    decreases d, 0
  {
    hide Text;
    match d
    case Arr(items) =>
      BuriedDocsNeverRead(items, k - 1);
    case Obj(members) =>
      BuriedEntriesNeverRead(members, k - 1);
  }

  lemma {:induction false} BuriedDocsNeverRead(ds: Docs, k: nat)
    requires BuriedDocs(ds, k) && ValidDocs(ds)
    ensures !DocsRead(ds, k) && !FirstMinus(ds, k)
    decreases ds, 0
  {
    hide Text, Reads, IsNumber;
    TextStart(ds.head);
    var w := |Text(ds.head)|;
    if k <= w {
      BuriedIsContainer(ds.head, k);
      BuriedNeverReads(ds.head, k);
    } else {
      BuriedIsMore(ds.tail, k - w - 1);
      BuriedDocsNeverRead(ds.tail, k - w - 1);
    }
  }

  lemma BuriedIsContainer(d: Doc, k: nat)
    requires IsBuried(d, k)
    ensures IsContainer(d)
  {
  }

  lemma {:induction false} BuriedIsMore(ds: Docs, k: nat)
    requires BuriedDocs(ds, k)
    ensures k > 0
  {
  }

  lemma {:induction false} BuriedEntriesNeverRead(es: Entries, k: nat)
    requires BuriedEntries(es, k)
    ensures !EntriesRead(es, k)
    decreases es, 0
  {
    hide Text, Reads, KeyText, Quoted;
    KeyTextLength(es.key);
    var (n, w) := (|KeyText(es.key)|, |Text(es.value)|);
    if k > n + w {
      BuriedEntriesNeverRead(es.later, k - n - w - 1);
    }
  }

  /** For every document and every cut of its compact text: the completion is
      accepted exactly when the cut reads, and then it is the preview. */
  lemma CompletionReadsExactly(d: Doc, k: nat)
    requires Valid(d) && k <= |Text(d)|
    ensures Parse(Complete(Text(d)[..k])) == if 0 < k && Reads(d, k) then Some(Preview(d, k)) else None
  {
    hide Run, Complete, Text, Done, Reads, Preview, IsBuried, Buried, Feed, ReadValue;
    var cut := Text(d)[..k];
    RunNothing();
    RunIsFeed(cut);
    if k == 0 {
      assert cut == [];
      CompleteNothing();
      ReadNothing([]);
    } else if IsBuried(d, k) {
      CutDoc(START, d, k);
      BuriedIsRejected(cut);
      BuriedNeverReads(d, k);
    } else {
      CompleteDoc([], d, k);
      assert [] + cut == cut && [] + Done(d, k) == Done(d, k);
      assert FramesAfter([], d, k) == [];
      ReadDone(d, k, []);
      assert Done(d, k) + [] == Done(d, k);
    }
  }

  lemma RunNothing()
    ensures Run([]) == START && AtValue(START)
  {
  }

  lemma CompleteNothing()
    ensures Complete([]) == []
  {
  }
}
