/** JSON documents and their compact text: what the scanner and the strict
    grammar make of a whole document inside any text. */
module Documents {
  import opened JsonText
  import opened JsonGrammar
  import opened PartialJson
  import opened PartialJsonShape
  import opened StreamingParse
  import opened FlatFields
  import opened NumberCuts

  datatype Doc = Null | Bool(b: bool) | Num(text: string) | Str(s: string) | Arr(items: Docs) | Obj(members: Entries)

  datatype Docs = NoDocs | MoreDocs(head: Doc, tail: Docs)

  datatype Entries = NoEntries | MoreEntries(key: string, value: Doc, later: Entries)

  /** Every number is one of the grammar. */
  predicate Valid(d: Doc) {
    match d
    case Num(text) => IsNumber(text)
    case Arr(items) => ValidDocs(items)
    case Obj(members) => ValidEntries(members)
    case _ => true
  }

  predicate ValidDocs(ds: Docs) {
    ds.NoDocs? || (Valid(ds.head) && ValidDocs(ds.tail))
  }

  predicate ValidEntries(es: Entries) {
    es.NoEntries? || (Valid(es.value) && ValidEntries(es.later))
  }

  predicate IsWord(d: Doc) {
    d.Null? || d.Bool?
  }

  predicate IsContainer(d: Doc) {
    d.Arr? || d.Obj?
  }

  function WordText(d: Doc): string
    requires IsWord(d)
  {
    if d.Null? then "null" else if d.b then "true" else "false"
  }

  /** The compact serialisation. */
  function Text(d: Doc): string {
    match d
    case Num(text) => text
    case Str(s) => Quoted(s)
    case Arr(items) => "[" + DocsText(items) + "]"
    case Obj(members) => "{" + EntriesText(members) + "}"
    case _ => WordText(d)
  }

  function DocsText(ds: Docs): string {
    if ds.NoDocs? then []
    else if ds.tail.NoDocs? then Text(ds.head)
    else Text(ds.head) + "," + DocsText(ds.tail)
  }

  function KeyText(key: string): string {
    Quoted(key) + ":"
  }

  function EntriesText(es: Entries): string {
    if es.NoEntries? then []
    else if es.later.NoEntries? then KeyText(es.key) + Text(es.value)
    else KeyText(es.key) + Text(es.value) + "," + EntriesText(es.later)
  }

  /** The value a document stands for. */
  function JsonOf(d: Doc): Json {
    match d
    case Null => JNull
    case Bool(b) => JBool(b)
    case Num(text) => JNumber(text)
    case Str(s) => JString(Utf16(s))
    case Arr(items) => JArray(JsonsOf(items))
    case Obj(members) => JObject(MembersOf(members))
  }

  function JsonsOf(ds: Docs): seq<Json> {
    if ds.NoDocs? then [] else [JsonOf(ds.head)] + JsonsOf(ds.tail)
  }

  function MembersOf(es: Entries): seq<Member> {
    if es.NoEntries? then [] else [Member(Utf16(es.key), JsonOf(es.value))] + MembersOf(es.later)
  }

  // ---------------------------------------------------------------------
  // The scanner
  // ---------------------------------------------------------------------

  /** A value may start here: at top level, as an array item or after a
      colon. */
  predicate AtValue(st: Scan) {
    Calm(st) && st.literal.None? && (st.frames == [] || st.frames[|st.frames| - 1].due == ValueDue)
  }

  /** A member may start here. */
  predicate AtKey(st: Scan) {
    Calm(st) && st.literal.None? && st.frames != [] && st.frames[|st.frames| - 1] == Frame(ObjectKind, KeyOrValue)
  }

  predicate InArray(st: Scan) {
    st.frames != [] && st.frames[|st.frames| - 1].kind == ArrayKind
  }

  predicate InObjectValue(st: Scan) {
    st.frames != [] && st.frames[|st.frames| - 1].kind == ObjectKind
  }

  /** The scanner after a whole document. */
  function AfterDoc(st: Scan, d: Doc): Scan {
    var next := Advance(st, |Text(d)|);
    if IsWord(d) then next
    else if d.Num? then next.(literal := Some(st.pos))
    else next.(frames := WithLast(st.frames, AfterValue))
  }

  /** The scanner after the innermost container is closed. */
  function Closed(st: Scan, n: nat): Scan
    requires st.frames != []
  {
    Advance(st, n).(frames := WithLast(st.frames[..|st.frames| - 1], AfterValue), literal := None)
  }

  lemma AfterDocComma(st: Scan, d: Doc)
    requires AtValue(st) && st.frames != []
    ensures Next(AfterDoc(st, d), ',') ==
            Advance(st, |Text(d)| + 1).(frames := WithLast(st.frames, if InArray(st) then ValueDue else KeyOrValue))
    ensures InArray(st) ==> WithLast(st.frames, ValueDue) == st.frames
  {
    hide Text;
  }

  lemma AfterDocCloser(st: Scan, d: Doc, c: char)
    requires AtValue(st) && st.frames != [] && (c == ']' || c == '}')
    ensures Next(AfterDoc(st, d), c) == Closed(st, |Text(d)| + 1)
  {
    hide Text;
    assert WithLast(st.frames, AfterValue)[..|st.frames| - 1] == st.frames[..|st.frames| - 1];
  }

  lemma FeedQuoted(st: Scan, s: string, t: string)
    requires Calm(st) && st.literal.None?
    ensures Feed(st, Quoted(s) + t) == Feed(Advance(st, |Quoted(s)|).(frames := CloseString(st.frames)), t)
  {
    hide EscapeText, Feed;
    var e := EscapeText(s);
    assert Quoted(s) + t == ['"'] + (e + (['"'] + t));
    FeedCons(st, '"', e + (['"'] + t));
    FeedEscaped(Next(st, '"'), s, ['"'] + t);
    FeedCons(Advance(Next(st, '"'), |e|), '"', t);
  }

  lemma FeedKeyText(st: Scan, key: string, t: string)
    requires AtKey(st)
    ensures Feed(st, KeyText(key) + t) ==
            Feed(Advance(st, |KeyText(key)|).(frames := WithLast(st.frames, ValueDue)), t)
  {
    hide Quoted, Feed;
    assert KeyText(key) + t == Quoted(key) + ([':'] + t);
    FeedQuoted(st, key, [':'] + t);
    FeedCons(Advance(st, |Quoted(key)|).(frames := CloseString(st.frames)), ':', t);
  }

  lemma FeedWordText(st: Scan, d: Doc, t: string)
    requires AtValue(st) && IsWord(d)
    ensures Feed(st, Text(d) + t) == Feed(AfterDoc(st, d), t)
  {
    var w := Text(d);
    FeedWord(st, w + t, w);
    assert (w + t)[|w|..] == t;
  }

  lemma FeedNumberText(st: Scan, s: string, k: nat, t: string)
    requires AtValue(st) && IsNumber(s) && 0 < k <= |s|
    ensures Feed(st, s[..k] + t) == Feed(Advance(st, k).(literal := Some(st.pos)), t)
  {
    DigitAfterMinus(s);
    assert forall i :: 0 <= i < k ==> IsNumberChar(s[i]);
    hide NumberLength, Feed;
    var first := Next(st, s[0]);
    assert first == Advance(st, 1).(literal := Some(st.pos));
    assert s[..k] + t == [s[0]] + (s[1..k] + t);
    FeedCons(st, s[0], s[1..k] + t);
    FeedAppend(first, s[1..k], t);
    FeedNumberTail(first, s[1..k]);
  }

  lemma {:induction false} FeedDoc(st: Scan, d: Doc, t: string)
    requires AtValue(st) && Valid(d)
    ensures Feed(st, Text(d) + t) == Feed(AfterDoc(st, d), t)
    decreases d, 0
  {
    hide Feed, Next, IsNumber;
    match d
    case Num(text) =>
      NumberIsNonEmpty(text);
      assert text[..|text|] == text;
      FeedNumberText(st, text, |text|, t);
    case Str(s) =>
      FeedQuoted(st, s, t);
    case Arr(items) =>
      FeedArray(st, items, t);
    case Obj(members) =>
      FeedObject(st, members, t);
    case _ => FeedWordText(st, d, t);
  }

  lemma {:induction false} FeedArray(st: Scan, items: Docs, t: string)
    requires AtValue(st) && ValidDocs(items)
    ensures Feed(st, Text(Arr(items)) + t) == Feed(AfterDoc(st, Arr(items)), t)
    decreases items, 1
  {
    hide Feed, Next, DocsText;
    assert Text(Arr(items)) + t == ['['] + (DocsText(items) + ([']'] + t));
    FeedCons(st, '[', DocsText(items) + ([']'] + t));
    OpenArray(st);
    FeedDocs(Next(st, '['), items, t);
    ClosedAgain(st, '[', |DocsText(items)| + 1);
  }

  lemma {:induction false} FeedObject(st: Scan, members: Entries, t: string)
    requires AtValue(st) && ValidEntries(members)
    ensures Feed(st, Text(Obj(members)) + t) == Feed(AfterDoc(st, Obj(members)), t)
    decreases members, 1
  {
    hide Feed, Next, EntriesText;
    assert Text(Obj(members)) + t == ['{'] + (EntriesText(members) + (['}'] + t));
    FeedCons(st, '{', EntriesText(members) + (['}'] + t));
    OpenObject(st);
    FeedEntries(Next(st, '{'), members, t);
    ClosedAgain(st, '{', |EntriesText(members)| + 1);
  }

  lemma NumberIsNonEmpty(s: string)
    requires IsNumber(s)
    ensures s != []
  {
  }

  lemma OpenArray(st: Scan)
    requires AtValue(st)
    ensures var next := Next(st, '[');
            next == Advance(st, 1).(frames := st.frames + [Frame(ArrayKind, ValueDue)]) && AtValue(next)
            && InArray(next)
  {
  }

  lemma OpenObject(st: Scan)
    requires AtValue(st)
    ensures var next := Next(st, '{');
            next == Advance(st, 1).(frames := st.frames + [Frame(ObjectKind, KeyOrValue)]) && AtKey(next)
  {
  }

  lemma ClosedAgain(st: Scan, c: char, n: nat)
    requires AtValue(st) && (c == '[' || c == '{')
    ensures Next(st, c).frames != []
    ensures Closed(Next(st, c), n) == Advance(st, n + 1).(frames := WithLast(st.frames, AfterValue))
  {
    assert Next(st, c).frames[..|st.frames|] == st.frames;
  }

  lemma CloseEmpty(st: Scan, c: char, t: string)
    requires Calm(st) && st.frames != [] && (c == ']' || c == '}')
    ensures Feed(st, [] + ([c] + t)) == Feed(Closed(st, 1), t)
  {
    assert [] + ([c] + t) == [c] + t;
    FeedCons(st, c, t);
  }

  lemma {:induction false} FeedDocs(st: Scan, ds: Docs, t: string)
    requires AtValue(st) && InArray(st) && ValidDocs(ds)
    ensures Feed(st, DocsText(ds) + ([']'] + t)) == Feed(Closed(st, |DocsText(ds)| + 1), t)
    decreases ds, 0
  {
    hide Feed, Next, Text;
    if ds.NoDocs? {
      CloseEmpty(st, ']', t);
    } else if ds.tail.NoDocs? {
      FeedDoc(st, ds.head, [']'] + t);
      FeedCons(AfterDoc(st, ds.head), ']', t);
      AfterDocCloser(st, ds.head, ']');
    } else {
      var rest := DocsText(ds.tail) + ([']'] + t);
      assert DocsText(ds) + ([']'] + t) == Text(ds.head) + ([','] + rest);
      FeedDoc(st, ds.head, [','] + rest);
      FeedCons(AfterDoc(st, ds.head), ',', rest);
      AfterDocComma(st, ds.head);
      FeedDocs(Advance(st, |Text(ds.head)| + 1), ds.tail, t);
    }
  }

  /** The scanner at the value of a member. */
  function AfterKey(st: Scan, key: string): Scan {
    Advance(st, |KeyText(key)|).(frames := WithLast(st.frames, ValueDue))
  }

  lemma AfterKeyIsValue(st: Scan, key: string)
    requires AtKey(st)
    ensures var next := AfterKey(st, key);
            && AtValue(next) && InObjectValue(next)
            && next.frames[..|next.frames| - 1] == st.frames[..|st.frames| - 1]
            && WithLast(next.frames, KeyOrValue) == st.frames
            && next.frames[|next.frames| - 1] == Frame(ObjectKind, ValueDue)
  {
  }

  lemma {:induction false} FeedEntries(st: Scan, es: Entries, t: string)
    requires AtKey(st) && ValidEntries(es)
    ensures Feed(st, EntriesText(es) + (['}'] + t)) == Feed(Closed(st, |EntriesText(es)| + 1), t)
    decreases es, 0
  {
    hide Feed, Next, Text, KeyText;
    if es.NoEntries? {
      CloseEmpty(st, '}', t);
    } else {
      var at := AfterKey(st, es.key);
      AfterKeyIsValue(st, es.key);
      var n := |KeyText(es.key)|;
      if es.later.NoEntries? {
        var tail := ['}'] + t;
        assert EntriesText(es) + tail == KeyText(es.key) + (Text(es.value) + tail);
        FeedKeyText(st, es.key, Text(es.value) + tail);
        FeedDoc(at, es.value, tail);
        FeedCons(AfterDoc(at, es.value), '}', t);
        AfterDocCloser(at, es.value, '}');
      } else {
        var rest := EntriesText(es.later) + (['}'] + t);
        assert EntriesText(es) + (['}'] + t) == KeyText(es.key) + (Text(es.value) + ([','] + rest));
        FeedKeyText(st, es.key, Text(es.value) + ([','] + rest));
        FeedDoc(at, es.value, [','] + rest);
        FeedCons(AfterDoc(at, es.value), ',', rest);
        AfterDocComma(at, es.value);
        FeedEntries(Advance(st, n + |Text(es.value)| + 1), es.later, t);
      }
    }
  }

  // ---------------------------------------------------------------------
  // The strict grammar
  // ---------------------------------------------------------------------

  /** What may follow a value in compact text. */
  predicate Delimited(t: string) {
    t == [] || t[0] == ',' || t[0] == ']' || t[0] == '}'
  }

  /** A value starts with `c`. */
  predicate StartsValue(c: char) {
    c == '"' || c == '{' || c == '[' || c == '-' || IsDigit(c) || c == 't' || c == 'f' || c == 'n'
  }

  lemma TextStart(d: Doc)
    requires Valid(d)
    ensures Text(d) != [] && StartsValue(Text(d)[0])
  {
    if d.Num? {
      DigitAfterMinus(d.text);
    }
  }

  lemma ReadWordText(d: Doc, t: string)
    requires IsWord(d)
    ensures ReadValue(Text(d) + t) == Ok(JsonOf(d), t)
  {
    hide ReadString, ReadMembers, ReadItems, NumberLength;
    var w := Text(d);
    assert w <= w + t && (w + t)[|w|..] == t;
    assert (w + t)[0] == w[0];
    if !d.Null? && !d.b {
      assert !("true" <= w + t) by {
        assert "true"[0] == 't';
      }
    }
  }

  lemma ReadNumberText(c: string, t: string)
    requires c != [] && (IsDigit(c[0]) || c[0] == '-') && NumberLength(c + t) == |c|
    ensures ReadValue(c + t) == Ok(JNumber(c), t)
  {
    hide ReadString, ReadMembers, ReadItems, NumberLength;
    var s := c + t;
    assert s[0] == c[0];
    assert "true"[0] == 't' && "false"[0] == 'f' && "null"[0] == 'n';
    assert s[..|c|] == c && s[|c|..] == t;
  }

  lemma ReadArrayText(x: string)
    requires x != [] && !IsJsonSpace(x[0])
    ensures ReadValue(['['] + x) ==
            if x[0] == ']' then Ok(JArray([]), x[1..])
            else var r := ReadItems(x); if r.Ok? then Ok(JArray(r.value), r.rest) else Fail
  {
    hide ReadString, ReadMembers, ReadItems, NumberLength;
    assert (['['] + x)[1..] == x;
  }

  lemma ReadObjectText(x: string)
    requires x != [] && !IsJsonSpace(x[0])
    ensures ReadValue(['{'] + x) ==
            if x[0] == '}' then Ok(JObject([]), x[1..])
            else var r := ReadMembers(x); if r.Ok? then Ok(JObject(r.value), r.rest) else Fail
  {
    hide ReadString, ReadMembers, ReadItems, NumberLength;
    assert (['{'] + x)[1..] == x;
  }

  lemma LastItem(s: string, v: Json, t: string)
    requires ReadValue(s) == Ok(v, [']'] + t)
    ensures ReadItems(s) == Ok([v], t)
  {
    hide ReadValue;
    assert ([']'] + t)[1..] == t;
  }

  lemma MoreItems(s: string, v: Json, t: string)
    requires ReadValue(s) == Ok(v, [','] + t)
    ensures ReadItems(s) == var more := ReadItems(t); if more.Ok? then Ok([v] + more.value, more.rest) else Fail
  {
    hide ReadValue;
    assert ([','] + t)[1..] == t;
  }

  lemma LastEntry(s: string, key: seq<nat>, y: string, v: Json, t: string)
    requires ReadKey(s) == Ok(key, y) && ReadValue(y) == Ok(v, ['}'] + t)
    ensures ReadMembers(s) == Ok([Member(key, v)], t)
  {
    hide ReadValue, ReadKey;
    assert (['}'] + t)[1..] == t;
  }

  lemma MoreMembers(s: string, key: seq<nat>, y: string, v: Json, t: string)
    requires ReadKey(s) == Ok(key, y) && ReadValue(y) == Ok(v, [','] + t)
    ensures ReadMembers(s) ==
            var more := ReadMembers(t); if more.Ok? then Ok([Member(key, v)] + more.value, more.rest) else Fail
  {
    hide ReadValue, ReadKey;
    assert ([','] + t)[1..] == t;
  }

  lemma ReadKeyText(key: string, y: string)
    ensures ReadKey(KeyText(key) + y) == Ok(Utf16(key), y)
  {
    ReadQuotedKey(key, y);
  }

  /** A whole document is read back, and the rest is left. */
  lemma {:induction false} ReadDoc(d: Doc, t: string)
    requires Valid(d) && Delimited(t)
    ensures ReadValue(Text(d) + t) == Ok(JsonOf(d), t)
    decreases d, 0
  {
    hide ReadValue, IsNumber, Quoted;
    match d
    case Num(text) =>
      NumberIsNonEmpty(text);
      DigitAfterMinus(text);
      PrefixIsNumber(text, |text|, t);
      assert text[..|text|] == text;
      ReadNumberText(text, t);
    case Str(s) =>
      ReadQuotedValue(s, t);
    case Arr(items) =>
      ReadArray(items, t);
    case Obj(members) =>
      ReadObjectDoc(members, t);
    case _ => ReadWordText(d, t);
  }

  lemma {:induction false} ReadArray(items: Docs, t: string)
    requires ValidDocs(items) && Delimited(t)
    ensures ReadValue(Text(Arr(items)) + t) == Ok(JsonOf(Arr(items)), t)
    decreases items, 1
  {
    hide ReadValue, ReadItems, DocsText;
    ArrayText(items, t);
    if items.NoDocs? {
      ReadArrayText([']'] + t);
      assert ([']'] + t)[1..] == t;
    } else {
      hide Text;
      ReadDocs(items, t);
      ReadArrayText(DocsText(items) + ([']'] + t));
    }
  }

  lemma ArrayText(items: Docs, t: string)
    requires ValidDocs(items)
    ensures Text(Arr(items)) + t == ['['] + (DocsText(items) + ([']'] + t))
    ensures items.NoDocs? ==> DocsText(items) + ([']'] + t) == [']'] + t
    ensures items.MoreDocs? ==> var x := DocsText(items) + ([']'] + t); !IsJsonSpace(x[0]) && x[0] != ']'
  {
    var x := DocsText(items) + ([']'] + t);
    assert Text(Arr(items)) + t == ['['] + x;
    if items.MoreDocs? {
      TextStart(items.head);
      assert x[0] == Text(items.head)[0];
    }
  }

  lemma {:induction false} ReadObjectDoc(members: Entries, t: string)
    requires ValidEntries(members) && Delimited(t)
    ensures ReadValue(Text(Obj(members)) + t) == Ok(JsonOf(Obj(members)), t)
    decreases members, 1
  {
    hide ReadValue, ReadMembers;
    var x := EntriesText(members) + (['}'] + t);
    assert Text(Obj(members)) + t == ['{'] + x;
    if members.NoEntries? {
      assert x == ['}'] + t && x[1..] == t;
      ReadObjectText(x);
    } else {
      assert x[0] == KeyText(members.key)[0] == '"';
      ReadEntries(members, t);
      ReadObjectText(x);
    }
  }

  lemma {:induction false} ReadDocs(ds: Docs, t: string)
    requires ds.MoreDocs? && ValidDocs(ds)
    ensures ReadItems(DocsText(ds) + ([']'] + t)) == Ok(JsonsOf(ds), t)
    decreases ds, 0
  {
    hide ReadValue, ReadItems, Text;
    if ds.tail.NoDocs? {
      ReadDoc(ds.head, [']'] + t);
      LastItem(DocsText(ds) + ([']'] + t), JsonOf(ds.head), t);
      assert JsonsOf(ds) == [JsonOf(ds.head)];
    } else {
      var rest := DocsText(ds.tail) + ([']'] + t);
      assert DocsText(ds) + ([']'] + t) == Text(ds.head) + ([','] + rest);
      ReadDoc(ds.head, [','] + rest);
      MoreItems(Text(ds.head) + ([','] + rest), JsonOf(ds.head), rest);
      ReadDocs(ds.tail, t);
    }
  }

  lemma {:induction false} ReadEntries(es: Entries, t: string)
    requires es.MoreEntries? && ValidEntries(es)
    ensures ReadMembers(EntriesText(es) + (['}'] + t)) == Ok(MembersOf(es), t)
    decreases es, 0
  {
    hide ReadValue, ReadMembers, ReadKey, Text, KeyText;
    if es.later.NoEntries? {
      var y := Text(es.value) + (['}'] + t);
      assert EntriesText(es) + (['}'] + t) == KeyText(es.key) + y;
      ReadKeyText(es.key, y);
      ReadDoc(es.value, ['}'] + t);
      LastEntry(KeyText(es.key) + y, Utf16(es.key), y, JsonOf(es.value), t);
      assert MembersOf(es) == [Member(Utf16(es.key), JsonOf(es.value))];
    } else {
      var rest := EntriesText(es.later) + (['}'] + t);
      var y := Text(es.value) + ([','] + rest);
      assert EntriesText(es) + (['}'] + t) == KeyText(es.key) + y;
      ReadKeyText(es.key, y);
      ReadDoc(es.value, [','] + rest);
      MoreMembers(KeyText(es.key) + y, Utf16(es.key), y, JsonOf(es.value), rest);
      ReadEntries(es.later, t);
    }
  }
}
