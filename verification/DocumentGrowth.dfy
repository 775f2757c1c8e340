/** As more of a document arrives, what its preview shows only grows. */
module DocumentGrowth {
  import opened JsonText
  import opened JsonGrammar
  import opened PartialJson
  import opened FlatFields
  import FlatCuts
  import opened NumberCuts
  import opened Documents
  import opened DocumentCuts
  import opened DocumentPreviews
  import opened DocumentStreaming
  import opened StreamingParse

  /** `b` shows all that `a` shows, and more: numbers and strings are continued,
      containers are extended and their last entry grows; a member whose value
      is null may still complete its key and get any value. */
  predicate JsonGrows(a: Json, b: Json)
    decreases a
  {
    match a
    case JNumber(text) => b.JNumber? && text <= b.text
    case JString(units) => b.JString? && units <= b.units
    case JArray(items) =>
      && b.JArray? && |items| <= |b.items|
      && (items != [] ==>
            var n := |items| - 1;
            items[..n] == b.items[..n] && JsonGrows(items[n], b.items[n]))
    case JObject(members) =>
      && b.JObject? && |members| <= |b.members|
      && (members != [] ==>
            var n := |members| - 1;
            && members[..n] == b.members[..n] && members[n].key <= b.members[n].key
            && (members[n].value == JNull
                || (members[n].key == b.members[n].key && JsonGrows(members[n].value, b.members[n].value))))
    case _ => a == b
  }

  lemma {:induction false} GrowsToItself(a: Json)
    ensures JsonGrows(a, a)
    decreases a
  {
    match a
    case JArray(items) =>
      if items != [] {
        GrowsToItself(items[|items| - 1]);
      }
    case JObject(members) =>
      if members != [] {
        GrowsToItself(members[|members| - 1].value);
      }
    case _ =>
  }

  /** One item list grows into another. */
  predicate ItemsGrow(a: seq<Json>, b: seq<Json>) {
    JsonGrows(JArray(a), JArray(b))
  }

  predicate MembersGrow(a: seq<Member>, b: seq<Member>) {
    JsonGrows(JObject(a), JObject(b))
  }

  lemma FirstItem(x: Json, b: seq<Json>)
    requires b != [] && JsonGrows(x, b[0])
    ensures ItemsGrow([x], b)
  {
    assert [x][..0] == b[..0];
  }

  lemma LaterItems(x: Json, a: seq<Json>, b: seq<Json>)
    requires ItemsGrow(a, b)
    ensures ItemsGrow([x] + a, [x] + b)
  {
    if a == [] {
      GrowsToItself(x);
      assert [x] + a == [x];
      FirstItem(x, [x] + b);
    } else {
      var n := |a| - 1;
      assert ([x] + a)[..n + 1] == [x] + a[..n] && ([x] + b)[..n + 1] == [x] + b[..n];
    }
  }

  lemma FirstMember(x: Member, b: seq<Member>)
    requires b != [] && x.key <= b[0].key && (x.value == JNull || (x.key == b[0].key && JsonGrows(x.value, b[0].value)))
    ensures MembersGrow([x], b)
  {
    assert [x][..0] == b[..0];
  }

  lemma LaterMembers(x: Member, a: seq<Member>, b: seq<Member>)
    requires MembersGrow(a, b)
    ensures MembersGrow([x] + a, [x] + b)
  {
    if a == [] {
      GrowsToItself(x.value);
      assert [x] + a == [x];
      FirstMember(x, [x] + b);
    } else {
      var n := |a| - 1;
      assert ([x] + a)[..n + 1] == [x] + a[..n] && ([x] + b)[..n + 1] == [x] + b[..n];
    }
  }

  lemma NumberGrows(text: string, k: nat, k': nat)
    requires IsNumber(text) && 0 < k <= k' <= |text|
    ensures TrimNumberTail(text[..k]) <= TrimNumberTail(text[..k'])
  {
    hide IsNumber, TrimNumberTail;
    var m := TrimmedNumber(text, k);
    var m' := TrimmedNumber(text, k');
    assert m <= m';
    assert text[..m'][..m] == text[..m];
  }

  lemma StringGrows(s: string, k: nat, k': nat)
    requires 0 < k <= k'
    ensures Utf16(s[..WholeChars(s, k - 1)]) <= Utf16(s[..WholeChars(s, k' - 1)])
    ensures Utf16(s[..WholeChars(s, k - 1)]) <= Utf16(s)
  {
    hide Utf16;
    FlatCuts.WholeCharsGrow(s, k - 1, k' - 1);
    FlatCuts.PrefixOfPrefix(s, WholeChars(s, k - 1), WholeChars(s, k' - 1));
    FlatCuts.Utf16Prefix(s, WholeChars(s, k - 1));
  }

  lemma {:induction false} WholePreview(ds: Docs)
    requires ValidDocs(ds)
    ensures PreviewDocs(ds, |DocsText(ds)|) == JsonsOf(ds)
    decreases ds
  {
    hide Text, Preview;
    if ds.MoreDocs? {
      TextStart(ds.head);
      WholeIsWhole(ds.head);
      if ds.tail.MoreDocs? {
        TextStart(ds.tail.head);
        WholePreview(ds.tail);
        assert |DocsText(ds)| == |Text(ds.head)| + 1 + |DocsText(ds.tail)|;
      }
    }
  }

  lemma WholeIsWhole(d: Doc)
    requires Text(d) != []
    ensures Preview(d, |Text(d)|) == JsonOf(d)
  {
  }

  lemma {:induction false} WholeMembers(es: Entries)
    requires ValidEntries(es)
    ensures PreviewEntries(es, |EntriesText(es)|) == MembersOf(es)
    decreases es
  {
    hide Text, Preview, KeyText;
    if es.MoreEntries? {
      TextStart(es.value);
      WholeIsWhole(es.value);
      KeyIsLonger(es.key);
      if es.later.MoreEntries? {
        WholeMembers(es.later);
        assert |EntriesText(es)| == |KeyText(es.key)| + |Text(es.value)| + 1 + |EntriesText(es.later)|;
      }
    }
  }

  lemma KeyIsLonger(key: string)
    ensures |KeyText(key)| == |Quoted(key)| + 1 && |Quoted(key)| >= 2
  {
  }

  /** From a cut that reads to any later cut, the preview grows. */
  lemma {:induction false} PreviewGrowsOn(d: Doc, k: nat, k': nat)
    requires Valid(d) && 0 < k <= k' <= |Text(d)| && Reads(d, k)
    ensures JsonGrows(Preview(d, k), Preview(d, k'))
    decreases d, 1
  {
    hide Text, Utf16, TrimNumberTail, WholeChars, IsNumber, IntoEscape, DocsText, EntriesText, DocsRead, EntriesRead;
    if k == k' {
      GrowsToItself(Preview(d, k));
    } else {
      match d
      case Num(text) => GrowingNumber(text, k, k');
      case Str(s) => StringGrows(s, k, k');
      case Arr(items) => GrowingArray(items, k, k');
      case Obj(members) => GrowingObject(members, k, k');
      case _ =>
    }
  }

  lemma GrowingNumber(text: string, k: nat, k': nat)
    requires IsNumber(text) && 0 < k < k' <= |Text(Num(text))|
    ensures JsonGrows(Preview(Num(text), k), Preview(Num(text), k'))
  {
    hide IsNumber, TrimNumberTail;
    NumberGrows(text, k, k');
    WholeNumber(text);
    assert text[..|text|] == text;
  }

  lemma {:induction false} GrowingArray(items: Docs, k: nat, k': nat)
    requires ValidDocs(items) && 0 < k < k' <= |Text(Arr(items))| && Reads(Arr(items), k)
    ensures JsonGrows(Preview(Arr(items), k), Preview(Arr(items), k'))
    decreases items, 1
  {
    hide DocsText, DocsRead, PreviewDocs, JsonsOf;
    ArrayCut(items, k);
    var n := |DocsText(items)|;
    if k == 1 || FirstMinus(items, k - 1) {
      NothingDone(items);
    } else {
      var j := if k' == |Text(Arr(items))| then n else k' - 1;
      assert n + 2 == |Text(Arr(items))|;
      GrowingDocs(items, k - 1, j);
      WholePreview(items);
    }
  }

  lemma {:induction false} GrowingDocs(ds: Docs, k: nat, k': nat)
    requires ValidDocs(ds) && 0 < k <= k' <= |DocsText(ds)| && DocsRead(ds, k)
    ensures ItemsGrow(PreviewDocs(ds, k), PreviewDocs(ds, k'))
    decreases ds, 0
  {
    hide Text, Reads, Preview, JsonGrows, JsonOf, ItemsGrow;
    DocsCut(ds, k);
    DocsCut(ds, k');
    var w := |Text(ds.head)|;
    TextStart(ds.head);
    if k <= w {
      var now := Preview(ds.head, k);
      PreviewGrowsOn(ds.head, k, if k' <= w then k' else w);
      WholeIsWhole(ds.head);
      FirstItem(now, PreviewDocs(ds, k'));
    } else {
      if k == w + 1 {
        EmptyGrows(PreviewDocs(ds.tail, k' - w - 1));
      } else {
        GrowingDocs(ds.tail, k - w - 1, k' - w - 1);
      }
      LaterItems(JsonOf(ds.head), PreviewDocs(ds.tail, k - w - 1), PreviewDocs(ds.tail, k' - w - 1));
    }
  }

  lemma EmptyGrows(b: seq<Json>)
    ensures ItemsGrow([], b)
  {
  }

  lemma {:induction false} GrowingObject(members: Entries, k: nat, k': nat)
    requires ValidEntries(members) && 0 < k < k' <= |Text(Obj(members))| && Reads(Obj(members), k)
    ensures JsonGrows(Preview(Obj(members), k), Preview(Obj(members), k'))
    decreases members, 1
  {
    hide EntriesText, EntriesRead, PreviewEntries, MembersOf;
    ObjectCut(members, k);
    var n := |EntriesText(members)|;
    if k == 1 {
      NoEntryDone(members);
    } else {
      var j := if k' == |Text(Obj(members))| then n else k' - 1;
      assert n + 2 == |Text(Obj(members))|;
      GrowingEntries(members, k - 1, j);
      WholeMembers(members);
    }
  }

  lemma {:induction false} GrowingEntries(es: Entries, k: nat, k': nat)
    requires ValidEntries(es) && 0 < k <= k' <= |EntriesText(es)| && EntriesRead(es, k)
    ensures MembersGrow(PreviewEntries(es, k), PreviewEntries(es, k'))
    decreases es, 0
  {
    hide Text, Reads, Preview, JsonGrows, JsonOf, MembersGrow, Utf16, WholeChars, IntoEscape, Quoted, KeyText;
    EntriesCut(es, k);
    EntriesCut(es, k');
    KeyIsLonger(es.key);
    var (q, n, w) := (|Quoted(es.key)|, |KeyText(es.key)|, |Text(es.value)|);
    if k <= n {
      if k < q {
        StringGrows(es.key, k, k');
      }
      FirstMember(PreviewEntries(es, k)[0], PreviewEntries(es, k'));
    } else if k <= n + w {
      PreviewGrowsOn(es.value, k - n, if k' <= n + w then k' - n else w);
      TextStart(es.value);
      WholeIsWhole(es.value);
      FirstMember(PreviewEntries(es, k)[0], PreviewEntries(es, k'));
    } else {
      GrowingEntries(es.later, k - n - w - 1, k' - n - w - 1);
      LaterMembers(Member(Utf16(es.key), JsonOf(es.value)), PreviewEntries(es.later, k - n - w - 1),
                   PreviewEntries(es.later, k' - n - w - 1));
    }
  }

  /** Between any two cuts that read, what the client shows grows. */
  lemma StreamedGrows(d: Doc, k: nat, k': nat)
    requires Valid(d) && 0 < k <= k' <= |Text(d)| && Reads(d, k) && Reads(d, k')
    ensures JsonGrows(ParseStreaming(Text(d)[..k]), ParseStreaming(Text(d)[..k']))
  {
    hide ParseStreaming, Text, Reads, Preview, JsonGrows;
    StreamedCut(d, k);
    StreamedCut(d, k');
    PreviewGrowsOn(d, k, k');
  }
}
