/** The repair stage on every cut of a document, and with it exactly what the
    client shows there. */
module DocumentRepair {
  import opened JsonRepair
  import opened JsonGrammar
  import opened PartialJson
  import opened PartialJsonShape
  import opened StreamingParse
  import opened FlatFields
  import opened FlatCutsExact
  import opened NumberCuts
  import opened NestedCuts
  import opened Documents
  import opened DocumentCuts
  import opened DocumentCompletion
  import opened DocumentPreviews
  import opened DocumentStreaming

  // ---------------------------------------------------------------------
  // Whole documents need no repair
  // ---------------------------------------------------------------------

  lemma {:induction false} RepairPlainText(s: string, t: string)
    requires '"' !in s
    ensures Repair(s + t, false) == s + Repair(t, false)
  {
    if s == [] {
      assert s + t == t;
    } else {
      assert (s + t)[1..] == s[1..] + t;
      RepairPlainText(s[1..], t);
      assert [s[0]] + (s[1..] + Repair(t, false)) == s + Repair(t, false);
    }
  }

  lemma RepairKeyText(key: string, t: string)
    ensures Repair(KeyText(key) + t, false) == KeyText(key) + Repair(t, false)
  {
    hide Repair, Quoted;
    assert KeyText(key) + t == Quoted(key) + ([':'] + t);
    RepairQuoted(key, [':'] + t);
    RepairOutside(':', t);
    assert Quoted(key) + ([':'] + Repair(t, false)) == KeyText(key) + Repair(t, false);
  }

  lemma {:induction false} RepairDoc(d: Doc, t: string)
    requires Valid(d)
    ensures Repair(Text(d) + t, false) == Text(d) + Repair(t, false)
    decreases d, 0
  {
    hide Repair, Quoted, IsNumber, DocsText, EntriesText;
    match d
    case Num(text) =>
      NoQuoteInNumber(text);
      RepairPlainText(text, t);
    case Str(s) => RepairQuoted(s, t);
    case Arr(items) =>
      RepairDocs(items, [']'] + t);
      RepairBetween('[', DocsText(items), ']', t);
    case Obj(members) =>
      RepairEntries(members, ['}'] + t);
      RepairBetween('{', EntriesText(members), '}', t);
    case _ => RepairPlainText(Text(d), t);
  }

  lemma RepairBetween(opener: char, body: string, closer: char, t: string)
    requires opener != '"' && closer != '"'
    requires Repair(body + ([closer] + t), false) == body + Repair([closer] + t, false)
    ensures Repair([opener] + body + [closer] + t, false) == [opener] + body + [closer] + Repair(t, false)
  {
    hide Repair;
    assert [opener] + body + [closer] + t == [opener] + (body + ([closer] + t));
    RepairOutside(opener, body + ([closer] + t));
    RepairOutside(closer, t);
    assert [opener] + (body + ([closer] + Repair(t, false))) == [opener] + body + [closer] + Repair(t, false);
  }

  lemma {:induction false} RepairDocs(ds: Docs, t: string)
    requires ValidDocs(ds)
    ensures Repair(DocsText(ds) + t, false) == DocsText(ds) + Repair(t, false)
    decreases ds, 0
  {
    hide Repair, Text;
    if ds.NoDocs? {
      assert DocsText(ds) + t == t;
      assert DocsText(ds) + Repair(t, false) == Repair(t, false);
    } else if ds.tail.NoDocs? {
      RepairDoc(ds.head, t);
    } else {
      var rest := DocsText(ds.tail) + t;
      assert DocsText(ds) + t == Text(ds.head) + ([','] + rest);
      RepairDoc(ds.head, [','] + rest);
      RepairOutside(',', rest);
      RepairDocs(ds.tail, t);
      assert Text(ds.head) + ([','] + (DocsText(ds.tail) + Repair(t, false))) == DocsText(ds) + Repair(t, false);
    }
  }

  lemma {:induction false} RepairEntries(es: Entries, t: string)
    requires ValidEntries(es)
    ensures Repair(EntriesText(es) + t, false) == EntriesText(es) + Repair(t, false)
    decreases es, 0
  {
    hide Repair, Text, KeyText;
    if es.NoEntries? {
      assert EntriesText(es) + t == t;
      assert EntriesText(es) + Repair(t, false) == Repair(t, false);
    } else {
      if es.later.NoEntries? {
        RepairMember(es.key, es.value, t);
        assert EntriesText(es) == KeyText(es.key) + Text(es.value);
      } else {
        var rest := EntriesText(es.later) + t;
        RepairMember(es.key, es.value, [','] + rest);
        RepairOutside(',', rest);
        RepairEntries(es.later, t);
        EntriesThen(es, t);
        EntriesThen(es, Repair(t, false));
      }
    }
  }

  lemma {:induction false} RepairMember(key: string, d: Doc, t: string)
    requires Valid(d)
    ensures Repair(KeyText(key) + Text(d) + t, false) == KeyText(key) + Text(d) + Repair(t, false)
    decreases d, 1
  {
    hide Repair, Text, KeyText;
    assert KeyText(key) + Text(d) + t == KeyText(key) + (Text(d) + t);
    RepairKeyText(key, Text(d) + t);
    RepairDoc(d, t);
    assert KeyText(key) + (Text(d) + Repair(t, false)) == KeyText(key) + Text(d) + Repair(t, false);
  }

  lemma EntriesThen(es: Entries, t: string)
    requires es.MoreEntries? && es.later.MoreEntries?
    ensures EntriesText(es) + t == KeyText(es.key) + Text(es.value) + ([','] + (EntriesText(es.later) + t))
  {
    hide Text, KeyText;
  }

  // ---------------------------------------------------------------------
  // Torn cuts
  // ---------------------------------------------------------------------

  /** The cut is inside a `\uXXXX`. */
  predicate Torn(d: Doc, k: nat) {
    0 < k < |Text(d)| &&
    match d
    case Str(s) => IntoEscape(s, k - 1) > 1
    case Arr(items) => TornDocs(items, k - 1)
    case Obj(members) => TornEntries(members, k - 1)
    case _ => false
  }

  predicate TornDocs(ds: Docs, k: nat) {
    ds.MoreDocs? &&
    var w := |Text(ds.head)|;
    if k <= w then Torn(ds.head, k) else TornDocs(ds.tail, k - w - 1)
  }

  predicate TornEntries(es: Entries, k: nat) {
    es.MoreEntries? &&
    var (q, n, w) := (|Quoted(es.key)|, |KeyText(es.key)|, |Text(es.value)|);
    if k < q then k > 0 && IntoEscape(es.key, k - 1) > 1
    else if k <= n then false
    else if k <= n + w then Torn(es.value, k - n)
    else TornEntries(es.later, k - n - w - 1)
  }

  /** A string cut inside a `\uXXXX`, with the cut escape spelled out: the
      string, and where the repaired text ends in it. */
  function MendedString(s: string, k: nat): (string, nat)
    requires k > 0
  {
    var raw := RawCut(s, k - 1);
    (raw, 1 + |EscapeText(raw)|)
  }

  /** The document, and its cut, that a torn cut is repaired to. */
  function Mended(d: Doc, k: nat): (Doc, nat)
    requires Torn(d, k)
  {
    match d
    case Str(s) => var (raw, m) := MendedString(s, k); (Str(raw), m)
    case Arr(items) => var (ds, m) := MendedDocs(items, k - 1); (Arr(ds), m + 1)
    case Obj(members) => var (es, m) := MendedEntries(members, k - 1); (Obj(es), m + 1)
  }

  function MendedDocs(ds: Docs, k: nat): (Docs, nat)
    requires TornDocs(ds, k)
  {
    var w := |Text(ds.head)|;
    if k <= w then
      var (d, m) := Mended(ds.head, k);
      (MoreDocs(d, NoDocs), m)
    else
      var (tail, m) := MendedDocs(ds.tail, k - w - 1);
      (MoreDocs(ds.head, tail), w + 1 + m)
  }

  function MendedEntries(es: Entries, k: nat): (Entries, nat)
    requires TornEntries(es, k)
  {
    var (q, n, w) := (|Quoted(es.key)|, |KeyText(es.key)|, |Text(es.value)|);
    if k < q then
      var (raw, m) := MendedString(es.key, k);
      (MoreEntries(raw, Null, NoEntries), m)
    else if k <= n + w then
      var (d, m) := Mended(es.value, k - n);
      (MoreEntries(es.key, d, NoEntries), n + m)
    else
      var (later, m) := MendedEntries(es.later, k - n - w - 1);
      (MoreEntries(es.key, es.value, later), n + w + 1 + m)
  }

  lemma MendString(s: string, k: nat)
    requires 0 < k < |Quoted(s)| && IntoEscape(s, k - 1) > 1
    ensures var (raw, m) := MendedString(s, k);
            0 < m < |Quoted(raw)| && Repair(Quoted(s)[..k], false) == Quoted(raw)[..m]
  {
    hide Repair, EscapeText, IntoEscape, RawCut;
    var (raw, m) := MendedString(s, k);
    assert Quoted(s)[..k] == "\"" + EscapeText(s)[..k - 1];
    RepairOpenString(EscapeText(s)[..k - 1]);
    RepairCutString(s, k - 1);
    assert Quoted(raw)[..m] == "\"" + EscapeText(raw);
  }

  /** Repairing a torn cut gives that cut of that document. */
  lemma {:induction false} MendDoc(d: Doc, k: nat)
    requires Valid(d) && Torn(d, k)
    ensures var (e, m) := Mended(d, k);
            Valid(e) && 0 < m < |Text(e)| && Repair(Text(d)[..k], false) == Text(e)[..m]
    decreases d, 0
  {
    hide Repair, Quoted, IntoEscape, DocsText, EntriesText, TornDocs, TornEntries, MendedDocs, MendedEntries,
         MendedString;
    match d
    case Str(s) => MendString(s, k);
    case Arr(items) =>
      ArrayCut(items, k);
      MendDocs(items, k - 1);
      var (ds, m) := MendedDocs(items, k - 1);
      RepairOutside('[', DocsText(items)[..k - 1]);
      assert Text(Arr(ds))[..m + 1] == ['['] + DocsText(ds)[..m];
    case Obj(members) =>
      ObjectCut(members, k);
      MendEntries(members, k - 1);
      assert EntriesMend(members, k - 1);
      var (es, m) := MendedEntries(members, k - 1);
      RepairOutside('{', EntriesText(members)[..k - 1]);
      assert Text(Obj(es))[..m + 1] == ['{'] + EntriesText(es)[..m];
  }

  lemma {:induction false} MendDocs(ds: Docs, k: nat)
    requires ValidDocs(ds) && k <= |DocsText(ds)| && TornDocs(ds, k)
    ensures var (es, m) := MendedDocs(ds, k);
            ValidDocs(es) && 0 < m <= |DocsText(es)| && Repair(DocsText(ds)[..k], false) == DocsText(es)[..m]
    decreases ds, 0
  {
    hide Repair, Text, Torn, Mended;
    DocsCut(ds, k);
    var w := |Text(ds.head)|;
    if k <= w {
      MendDoc(ds.head, k);
    } else {
      MendDocs(ds.tail, k - w - 1);
      var (tail, m) := MendedDocs(ds.tail, k - w - 1);
      var rest := DocsText(ds.tail)[..k - w - 1];
      RepairDoc(ds.head, [','] + rest);
      RepairOutside(',', rest);
      assert tail.MoreDocs? && DocsText(MoreDocs(ds.head, tail)) == Text(ds.head) + ([','] + DocsText(tail));
      assert (Text(ds.head) + ([','] + DocsText(tail)))[..w + 1 + m] == Text(ds.head) + ([','] + DocsText(tail)[..m]);
    }
  }

  /** Where a torn cut of the members lies, and what it is mended to. */
  lemma TornTurn(es: Entries, k: nat)
    requires TornEntries(es, k)
    ensures var (q, n, w) := (|Quoted(es.key)|, |KeyText(es.key)|, |Text(es.value)|);
            && (k < q ==> k > 0 && IntoEscape(es.key, k - 1) > 1
                          && var (raw, m) := MendedString(es.key, k);
                             MendedEntries(es, k) == (MoreEntries(raw, Null, NoEntries), m))
            && (q <= k <= n + w ==> k > n && Torn(es.value, k - n)
                                    && var (d, m) := Mended(es.value, k - n);
                                       MendedEntries(es, k) == (MoreEntries(es.key, d, NoEntries), n + m))
            && (k > n + w ==> k > n + w + 1 && TornEntries(es.later, k - n - w - 1)
                              && var (later, m) := MendedEntries(es.later, k - n - w - 1);
                                 MendedEntries(es, k) == (MoreEntries(es.key, es.value, later), n + w + 1 + m))
  {
    hide Text, Torn, Mended, Quoted, IntoEscape, KeyText, MendedString;
    KeyTextLength(es.key);
  }

  /** The repair of the cut is the mended cut of the mended members. */
  predicate EntriesMend(es: Entries, k: nat)
    requires k <= |EntriesText(es)| && TornEntries(es, k)
  {
    var (fs, m) := MendedEntries(es, k);
    && fs.MoreEntries? && ValidEntries(fs) && 0 < m <= |EntriesText(fs)|
    && Repair(EntriesText(es)[..k], false) == EntriesText(fs)[..m]
  }

  lemma {:induction false} MendEntries(es: Entries, k: nat)
    requires ValidEntries(es) && k <= |EntriesText(es)| && TornEntries(es, k)
    ensures EntriesMend(es, k)
    decreases es, 2
  {
    EntriesCut(es, k);
    TornTurn(es, k);
    hide Repair, Text, Torn, Quoted, IntoEscape, KeyText, EntriesText, TornEntries, MendedEntries, MendedString,
         EntriesMend;
    var (q, n, w) := (|Quoted(es.key)|, |KeyText(es.key)|, |Text(es.value)|);
    if k < q {
      MendInKey(es, k);
    } else if k <= n + w {
      MendInValue(es, k);
    } else {
      MendEntries(es.later, k - n - w - 1);
      MendInLater(es, k);
    }
  }

  lemma MendInKey(es: Entries, k: nat)
    requires k <= |EntriesText(es)| && TornEntries(es, k) && k < |Quoted(es.key)|
    ensures EntriesMend(es, k)
  {
    TornTurn(es, k);
    EntriesCut(es, k);
    KeyTextLength(es.key);
    hide Repair, Text, Quoted, IntoEscape, KeyText, EntriesText, TornEntries, MendedEntries, MendedString;
    MendKey(es.key, k);
  }

  lemma {:induction false} MendInValue(es: Entries, k: nat)
    requires ValidEntries(es) && k <= |EntriesText(es)| && TornEntries(es, k)
    requires |Quoted(es.key)| <= k <= |KeyText(es.key)| + |Text(es.value)|
    ensures EntriesMend(es, k)
    decreases es, 1
  {
    TornTurn(es, k);
    EntriesCut(es, k);
    hide Repair, Text, Torn, Mended, Quoted, KeyText, EntriesText, TornEntries, MendedEntries;
    var j := k - |KeyText(es.key)|;
    MendDoc(es.value, j);
    var (d, m) := Mended(es.value, j);
    RepairKeyText(es.key, Text(es.value)[..j]);
    OnlyMember(es.key, d, m);
  }

  lemma MendInLater(es: Entries, k: nat)
    requires ValidEntries(es) && k <= |EntriesText(es)| && TornEntries(es, k)
    requires k > |KeyText(es.key)| + |Text(es.value)| + 1 && es.later.MoreEntries?
    requires var j := k - |KeyText(es.key)| - |Text(es.value)| - 1;
             j <= |EntriesText(es.later)| && TornEntries(es.later, j) && EntriesMend(es.later, j)
    ensures EntriesMend(es, k)
  {
    TornTurn(es, k);
    hide Repair, Text, KeyText, Quoted, EntriesText, TornEntries, MendedEntries;
    var j := k - |KeyText(es.key)| - |Text(es.value)| - 1;
    var (later, m) := MendedEntries(es.later, j);
    var (fs, i) := MendedEntries(es, k);
    MendLater(es, k, j, fs, i, m);
  }

  lemma OnlyMember(key: string, d: Doc, m: nat)
    requires Valid(d) && m <= |Text(d)|
    ensures var (n, fs) := (|KeyText(key)|, MoreEntries(key, d, NoEntries));
            && ValidEntries(fs) && n + m <= |EntriesText(fs)|
            && EntriesText(fs)[..n + m] == KeyText(key) + Text(d)[..m]
  {
    hide Text, KeyText;
    assert ValidEntries(NoEntries);
    assert EntriesText(MoreEntries(key, d, NoEntries)) == KeyText(key) + Text(d);
  }

  lemma MendKey(key: string, k: nat)
    requires 0 < k < |Quoted(key)| && IntoEscape(key, k - 1) > 1
    ensures var (raw, m) := MendedString(key, k);
            var fs := MoreEntries(raw, Null, NoEntries);
            && ValidEntries(fs) && 0 < m <= |EntriesText(fs)|
            && Repair(KeyText(key)[..k], false) == EntriesText(fs)[..m]
  {
    MendString(key, k);
    hide Repair, Quoted, IntoEscape;
    var (raw, m) := MendedString(key, k);
    assert ValidEntries(NoEntries);
    assert KeyText(key)[..k] == Quoted(key)[..k];
    assert EntriesText(MoreEntries(raw, Null, NoEntries)) == KeyText(raw) + Text(Null);
    assert EntriesText(MoreEntries(raw, Null, NoEntries))[..m] == Quoted(raw)[..m];
  }

  /** Past a member and its comma, with the rest already mended. */
  lemma MendLater(es: Entries, k: nat, j: nat, fs: Entries, i: nat, m: nat)
    requires es.MoreEntries? && Valid(es.value) && es.later.MoreEntries? && j <= |EntriesText(es.later)|
    requires fs.MoreEntries? && fs.later.MoreEntries? && m <= |EntriesText(fs.later)|
    requires fs.key == es.key && fs.value == es.value
    requires k - j == i - m == |KeyText(es.key)| + |Text(es.value)| + 1
    requires Repair(EntriesText(es.later)[..j], false) == EntriesText(fs.later)[..m]
    ensures k <= |EntriesText(es)| && i <= |EntriesText(fs)|
    ensures Repair(EntriesText(es)[..k], false) == EntriesText(fs)[..i]
  {
    hide Repair, Text, KeyText, EntriesText;
    var rest := EntriesText(es.later)[..j];
    PastComma(es, k, j);
    PastComma(fs, i, m);
    RepairKeyText(es.key, Text(es.value) + ([','] + rest));
    RepairDoc(es.value, [','] + rest);
    RepairOutside(',', rest);
  }

  lemma PastComma(es: Entries, k: nat, j: nat)
    requires es.MoreEntries? && es.later.MoreEntries? && j <= |EntriesText(es.later)|
    requires k == |KeyText(es.key)| + |Text(es.value)| + 1 + j
    ensures k <= |EntriesText(es)|
    ensures EntriesText(es)[..k] == KeyText(es.key) + (Text(es.value) + ([','] + EntriesText(es.later)[..j]))
  {
    hide Text, KeyText;
    assert EntriesText(es) == KeyText(es.key) + (Text(es.value) + ([','] + EntriesText(es.later)));
  }

  // ---------------------------------------------------------------------
  // Torn cuts do not read; the other unreadable ones need no repair
  // ---------------------------------------------------------------------

  lemma {:induction false} TornNeverReads(d: Doc, k: nat)
    requires Torn(d, k) && Valid(d)
    ensures !Reads(d, k)
    decreases d, 0
  {
    hide TornDocs, TornEntries, DocsText, EntriesText, Quoted, IntoEscape;
    match d
    case Str(_) =>
    case Arr(items) => TornDocsNeverRead(items, k - 1);
    case Obj(members) => TornEntriesNeverRead(members, k - 1);
  }

  lemma {:induction false} TornDocsNeverRead(ds: Docs, k: nat)
    requires TornDocs(ds, k) && ValidDocs(ds)
    ensures k > 0 && !DocsRead(ds, k) && !FirstMinus(ds, k)
    decreases ds, 0
  {
    hide Text, Reads, IsNumber;
    var w := |Text(ds.head)|;
    TextStart(ds.head);
    if k <= w {
      TornIsNoNumber(ds.head, k);
      TornNeverReads(ds.head, k);
    } else {
      TornDocsNeverRead(ds.tail, k - w - 1);
    }
  }

  lemma TornIsNoNumber(d: Doc, k: nat)
    requires Torn(d, k)
    ensures !d.Num? && !IsWord(d) && 0 < k < |Text(d)|
  {
  }

  lemma {:induction false} TornEntriesNeverRead(es: Entries, k: nat)
    requires TornEntries(es, k) && ValidEntries(es)
    ensures k > 0 && !EntriesRead(es, k)
    decreases es, 0
  {
    hide Text, Reads, Quoted, KeyText, IntoEscape, Torn;
    KeyTextLength(es.key);
    var (q, n, w) := (|Quoted(es.key)|, |KeyText(es.key)|, |Text(es.value)|);
    if q <= k <= n + w {
      TornNeverReads(es.value, k - n);
    } else if k > n + w {
      TornEntriesNeverRead(es.later, k - n - w - 1);
    }
  }

  /** A cut that neither reads nor is torn or buried is not inside a string,
      and is its own repair. */
  lemma {:induction false} UnreadableIsClean(d: Doc, k: nat)
    requires Valid(d) && 0 < k <= |Text(d)|
    ensures Reads(d, k) || Torn(d, k) || IsBuried(d, k) || Repair(Text(d)[..k], false) == Text(d)[..k]
    decreases d, 0
  {
    hide Repair, Quoted, IsNumber, DocsText, EntriesText, DocsRead, EntriesRead, TornDocs, TornEntries, BuriedDocs,
         BuriedEntries;
    var cut := Text(d)[..k];
    match d
    case Num(text) =>
      NoQuoteInNumber(text);
      NoQuoteNoRepair(cut);
    case Str(_) =>
    case Arr(items) =>
      if 1 < k < |Text(d)| {
        ArrayCut(items, k);
        UnreadableDocsAreClean(items, k - 1);
        RepairOutside('[', DocsText(items)[..k - 1]);
      }
    case Obj(members) =>
      if 1 < k < |Text(d)| {
        ObjectCut(members, k);
        UnreadableEntriesAreClean(members, k - 1);
        RepairOutside('{', EntriesText(members)[..k - 1]);
      }
    case _ => NoQuoteNoRepair(cut);
  }

  lemma {:induction false} UnreadableDocsAreClean(ds: Docs, k: nat)
    requires ValidDocs(ds) && 0 < k <= |DocsText(ds)|
    ensures DocsRead(ds, k) || TornDocs(ds, k) || BuriedDocs(ds, k)
            || Repair(DocsText(ds)[..k], false) == DocsText(ds)[..k]
    decreases ds, 0
  {
    hide Repair, Text, Reads, Torn, IsBuried;
    DocsCut(ds, k);
    var w := |Text(ds.head)|;
    if k <= w {
      UnreadableIsClean(ds.head, k);
    } else if k > w + 1 {
      var rest := DocsText(ds.tail)[..k - w - 1];
      UnreadableDocsAreClean(ds.tail, k - w - 1);
      RepairDoc(ds.head, [','] + rest);
      RepairOutside(',', rest);
    }
  }

  lemma {:induction false} UnreadableEntriesAreClean(es: Entries, k: nat)
    requires ValidEntries(es) && 0 < k <= |EntriesText(es)|
    ensures EntriesRead(es, k) || TornEntries(es, k) || BuriedEntries(es, k)
            || Repair(EntriesText(es)[..k], false) == EntriesText(es)[..k]
    decreases es, 0
  {
    hide Repair, Text, Reads, Torn, Quoted, KeyText, IntoEscape;
    EntriesCut(es, k);
    KeyTextLength(es.key);
    var (q, n, w) := (|Quoted(es.key)|, |KeyText(es.key)|, |Text(es.value)|);
    if n < k <= n + w {
      var cut := Text(es.value)[..k - n];
      RepairKeyText(es.key, cut);
      if IsWord(es.value) {
        NoQuoteInWord(es.value);
        NoQuoteNoRepair(cut);
      } else if !IsContainer(es.value) || k == n + w {
        UnreadableIsClean(es.value, k - n);
        WholeIsNotBuried(es.value, k - n);
      }
    } else if k > n + w {
      var rest := EntriesText(es.later)[..k - n - w - 1];
      RepairKeyText(es.key, Text(es.value) + ([','] + rest));
      RepairDoc(es.value, [','] + rest);
      RepairOutside(',', rest);
      if k == n + w + 1 {
        RepairNothing(false);
      } else {
        UnreadableEntriesAreClean(es.later, k - n - w - 1);
      }
    }
  }

  lemma NoQuoteInWord(d: Doc)
    requires IsWord(d)
    ensures '"' !in Text(d)
  {
  }

  // ---------------------------------------------------------------------
  // What the client shows
  // ---------------------------------------------------------------------

  /** The value shown for the cut after `k` characters. */
  function Shown(d: Doc, k: nat): Json
    requires Valid(d) && k <= |Text(d)|
  {
    if k > 0 && Reads(d, k) then Preview(d, k)
    else if Torn(d, k) then
      MendDoc(d, k);
      var (e, m) := Mended(d, k);
      if Reads(e, m) then Preview(e, m) else EMPTY_OBJECT
    else EMPTY_OBJECT
  }

  /** For every document and every cut of its compact text, without exception:
      the streaming parse shows the preview when the cut reads; the preview
      with the cut escape spelled out when it is torn and that one reads; and
      the empty object otherwise. */
  lemma StreamedEverywhere(d: Doc, k: nat)
    requires Valid(d) && k <= |Text(d)|
    ensures ParseStreaming(Text(d)[..k]) == Shown(d, k)
  {
    hide ParseStreaming, Text, Reads, Preview, Torn, Mended, IsBuried, Repair, EscapeClean;
    var cut := Text(d)[..k];
    if k > 0 && Reads(d, k) {
      StreamedCut(d, k);
    } else if Torn(d, k) {
      TornIsNoNumber(d, k);
      StreamedTorn(d, k);
    } else if IsBuried(d, k) {
      BuriedFallsBack(d, k);
    } else {
      if k > 0 {
        UnreadableIsClean(d, k);
      } else {
        assert cut == [];
        RepairNothing(false);
      }
      RepairFixesExactlyClean(cut, false);
      StreamedCutExactly(d, k);
    }
  }

  lemma BuriedFallsBack(d: Doc, k: nat)
    requires Valid(d) && k <= |Text(d)| && IsBuried(d, k)
    ensures ParseStreaming(Text(d)[..k]) == EMPTY_OBJECT
  {
    hide ParseStreaming, Text, Run, Feed, IsBuried, Buried;
    RunNothing();
    RunIsFeed(Text(d)[..k]);
    CutDoc(START, d, k);
    NestedCutFallsBack(Text(d)[..k]);
  }

  lemma {:induction false} TornIsOpen(st: Scan, d: Doc, k: nat)
    requires AtValue(st) && Valid(d) && Torn(d, k)
    ensures Feed(st, Text(d)[..k]).inString || Feed(st, Text(d)[..k]).frames != []
  {
    hide Feed, Quoted, IntoEscape, TornDocs, TornEntries;
    match d
    case Str(s) => FeedCutQuoted(st, s, k);
    case Arr(_) => CutDoc(st, d, k);
    case Obj(_) => CutDoc(st, d, k);
  }

  lemma StreamedTorn(d: Doc, k: nat)
    requires Valid(d) && Torn(d, k) && k <= |Text(d)|
    ensures ParseStreaming(Text(d)[..k]) == Shown(d, k)
  {
    hide Run, Feed, Complete, Parse, Text, Reads, Preview, Torn, Mended, Repair;
    var cut := Text(d)[..k];
    TornIsNoNumber(d, k);
    NotBlank(d, k);
    TornNeverReads(d, k);
    CompletionReadsExactly(d, k);
    RunNothing();
    RunIsFeed(cut);
    TornIsOpen(START, d, k);
    OpenTextIsRejected(cut);
    MendDoc(d, k);
    var (e, m) := Mended(d, k);
    CompletionReadsExactly(e, m);
  }
}
