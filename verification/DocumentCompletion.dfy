/** The completion of every cut of a document, unless it is buried. */
module DocumentCompletion {
  import opened JsonText
  import opened PartialJson
  import opened PartialJsonShape
  import opened StreamingParse
  import opened FlatFields
  import opened NumberCuts
  import opened Documents
  import opened DocumentCuts

  // ---------------------------------------------------------------------
  // The completed text
  // ---------------------------------------------------------------------

  /** A string cut after `k` characters, closed. */
  function ClosedString(s: string, k: nat): string
    requires 0 < k < |Quoted(s)|
  {
    ['"'] + EscapeText(s)[..if IntoEscape(s, k - 1) == 1 && k > 1 then k - 2 else k - 1] + ['"']
  }

  function Done(d: Doc, k: nat): string
    requires 0 < k <= |Text(d)|
    decreases d, 0
  {
    match d
    case Num(text) => TrimNumberTail(text[..k])
    case Str(s) => if k == |Text(d)| then Text(d) else ClosedString(s, k)
    case Arr(items) => if k == |Text(d)| then Text(d) else ['['] + DoneDocs(items, k - 1) + [']']
    case Obj(members) => if k == |Text(d)| then Text(d) else ['{'] + DoneEntries(members, k - 1) + ['}']
    case _ => Text(d)[..k]
  }

  function DoneDocs(ds: Docs, k: nat): string
    requires k <= |DocsText(ds)|
    decreases ds, 0
  {
    if k == 0 || ds.NoDocs? then []
    else
      var w := |Text(ds.head)|;
      DocsCut(ds, k);
      if k <= w then Done(ds.head, k)
      else if k == w + 1 then Text(ds.head)
      else Text(ds.head) + [','] + DoneDocs(ds.tail, k - w - 1)
  }

  /** A word as the value of a member is followed by a stray `null`. */
  function DoneMember(d: Doc, k: nat): string
    requires 0 < k <= |Text(d)|
    decreases d, 1
  {
    Done(d, k) + if IsWord(d) then "null" else []
  }

  function DoneEntries(es: Entries, k: nat): string
    requires k <= |EntriesText(es)|
    decreases es, 0
  {
    if k == 0 || es.NoEntries? then []
    else
      var (q, n, w) := (|Quoted(es.key)|, |KeyText(es.key)|, |Text(es.value)|);
      EntriesCut(es, k);
      if k < q then ClosedString(es.key, k) + ": null"
      else if k == q then Quoted(es.key) + ": null"
      else if k == n then KeyText(es.key) + "null"
      else if k <= n + w then KeyText(es.key) + DoneMember(es.value, k - n)
      else KeyText(es.key) + Text(es.value) + [','] + DoneEntries(es.later, k - n - w - 1)
  }

  // ---------------------------------------------------------------------
  // Finishing the cut token
  // ---------------------------------------------------------------------

  lemma CompleteOutside(cut: string)
    requires Calm(Run(cut)) && Run(cut).literal.None?
    ensures Complete(cut) == CloseAll(cut, Run(cut).frames)
  {
    hide Run, CloseAll;
    RunBounds(cut);
  }

  lemma CompleteNumber(p: string, c: string)
    requires Calm(Run(p + c)) && Run(p + c).literal == Some(|p|)
    ensures Complete(p + c) == CloseAll(p + TrimNumberTail(c), WithLast(Run(p + c).frames, AfterValue))
  {
    hide Run, CloseAll, TrimNumberTail;
    RunBounds(p + c);
    assert (p + c)[..|p|] == p && (p + c)[|p|..] == c;
  }

  lemma CompleteString(p: string, s: string, k: nat)
    requires 0 < k < |Quoted(s)|
    requires var st := Run(p + Quoted(s)[..k]); st.inString && (st.escaping <==> IntoEscape(s, k - 1) == 1)
    ensures Complete(p + Quoted(s)[..k]) ==
            CloseAll(p + ClosedString(s, k), CloseString(Run(p + Quoted(s)[..k]).frames))
  {
    hide Run, CloseAll, IntoEscape, EscapeText;
    var cut := p + Quoted(s)[..k];
    RunBounds(cut);
    var e := EscapeText(s)[..k - 1];
    assert Quoted(s)[..k] == ['"'] + e;
    if Run(cut).escaping {
      IntoNothing(s);
      assert cut[..|cut| - 1] == p + (['"'] + EscapeText(s)[..k - 2]);
      assert (p + (['"'] + EscapeText(s)[..k - 2])) + ['"'] == p + ClosedString(s, k);
    } else {
      assert cut + ['"'] == p + ClosedString(s, k);
    }
  }

  lemma IntoNothing(s: string)
    ensures IntoEscape(s, 0) == 0
  {
  }

  // ---------------------------------------------------------------------
  // Popping containers
  // ---------------------------------------------------------------------

  predicate EndsPlain(s: string) {
    s != [] && s[|s| - 1] != ',' && !IsWhitespace(s[|s| - 1])
  }

  lemma PopFrame(text: string, frames: seq<Frame>)
    requires frames != []
    ensures var (n, f) := (|frames| - 1, frames[|frames| - 1]);
            CloseAll(text, frames) == CloseAll(Fill(text, f) + [Closer(f.kind)], frames[..n])
  {
  }

  lemma FillPlain(text: string, f: Frame)
    ensures f.due == AfterValue || f.due == KeyOrValue ==> Fill(text, f) == text
    ensures f.due == Colon ==> Fill(text, f) == text + ": null"
    ensures f.due == ValueDue && EndsPlain(text) ==>
              Fill(text, f) == if f.kind == ObjectKind then text + "null" else text
  {
  }

  lemma FillComma(text: string, f: Frame)
    requires f.due == ValueDue && EndsPlain(text)
    ensures Fill(text + [','], f) == text
  {
    var t := text + [','];
    assert t[..|text|] == text;
    assert TrimEnd(t) == t;
    assert TrimCommas(t) == TrimCommas(text) == text;
  }

  lemma PlainAfter(p: string, s: string)
    requires EndsPlain(s)
    ensures EndsPlain(p + s)
  {
  }

  lemma TextEndsPlain(d: Doc)
    requires Valid(d)
    ensures EndsPlain(Text(d))
  {
    if d.Num? {
      DigitAfterMinus(d.text);
    }
  }

  /** The words, and the containers still open, leave the expectation of the
      container around them as it was. */
  function FramesAfter(frames: seq<Frame>, d: Doc, k: nat): seq<Frame> {
    if IsWord(d) || (IsContainer(d) && k < |Text(d)|) then frames else WithLast(frames, AfterValue)
  }

  lemma DoneEndsPlain(d: Doc, k: nat)
    requires Valid(d) && 0 < k <= |Text(d)| && (IsWord(d) || (IsContainer(d) && k < |Text(d)|))
    ensures EndsPlain(Done(d, k))
  {
    hide DoneDocs, DoneEntries;
  }

  /** Closing an array whose last item was completed. */
  lemma PopArray(p: string, st: Scan, d: Doc, k: nat)
    requires AtValue(st) && InArray(st) && Valid(d) && 0 < k <= |Text(d)|
    ensures CloseAll(p + Done(d, k), FramesAfter(st.frames, d, k)) ==
            CloseAll(p + Done(d, k) + [']'], st.frames[..|st.frames| - 1])
  {
    hide CloseAll, Fill, Done, Text;
    var (text, frames) := (p + Done(d, k), FramesAfter(st.frames, d, k));
    PopFrame(text, frames);
    var f := frames[|frames| - 1];
    FillPlain(text, f);
    assert frames[..|frames| - 1] == st.frames[..|st.frames| - 1];
    if f.due == ValueDue {
      DoneEndsPlain(d, k);
      PlainAfter(p, Done(d, k));
    }
  }

  lemma PopObject(p: string, st: Scan, d: Doc, k: nat)
    requires AtValue(st) && InObjectValue(st) && Valid(d) && 0 < k <= |Text(d)|
    requires IsContainer(d) ==> k == |Text(d)|
    ensures CloseAll(p + Done(d, k), FramesAfter(st.frames, d, k)) ==
            CloseAll(p + DoneMember(d, k) + ['}'], st.frames[..|st.frames| - 1])
  {
    hide CloseAll, Fill, Done, Text;
    var (text, frames) := (p + Done(d, k), FramesAfter(st.frames, d, k));
    PopFrame(text, frames);
    var f := frames[|frames| - 1];
    FillPlain(text, f);
    assert frames[..|frames| - 1] == st.frames[..|st.frames| - 1];
    if IsWord(d) {
      DoneEndsPlain(d, k);
      PlainAfter(p, Done(d, k));
      assert text + "null" == p + (Done(d, k) + "null");
    } else {
      assert Done(d, k) + [] == Done(d, k);
    }
  }

  // ---------------------------------------------------------------------
  // The completion
  // ---------------------------------------------------------------------

  lemma CompleteScalar(p: string, d: Doc, k: nat)
    requires AtValue(Run(p)) && Valid(d) && !IsContainer(d) && 0 < k <= |Text(d)|
    ensures Complete(p + Text(d)[..k]) == CloseAll(p + Done(d, k), FramesAfter(Run(p).frames, d, k))
  {
    hide Run, Feed, Complete, CloseAll, IsNumber, TrimNumberTail, IntoEscape, Quoted;
    var (st, cut) := (Run(p), Text(d)[..k]);
    RunAppend(p, cut);
    RunBounds(p);
    match d
    case Num(text) =>
      FeedCutNumber(st, text, k);
      CompleteNumber(p, cut);
    case Str(s) =>
      if k == |Text(d)| {
        FeedWhole(st, d);
        assert cut == Text(d);
        CompleteOutside(p + cut);
      } else {
        FeedCutQuoted(st, s, k);
        CompleteString(p, s, k);
      }
    case _ =>
      FeedCutWord(st, d, k);
      CompleteOutside(p + cut);
  }

  lemma CompleteWhole(p: string, d: Doc)
    requires AtValue(Run(p)) && Valid(d) && IsContainer(d)
    ensures Complete(p + Text(d)) == CloseAll(p + Text(d), WithLast(Run(p).frames, AfterValue))
  {
    hide Run, Feed, Complete, CloseAll, Text;
    RunAppend(p, Text(d));
    FeedWhole(Run(p), d);
    CompleteOutside(p + Text(d));
  }

  /** The completion of a cut, up to the containers that were open before. */
  lemma {:induction false} CompleteDoc(p: string, d: Doc, k: nat)
    requires AtValue(Run(p)) && Valid(d) && 0 < k <= |Text(d)| && !IsBuried(d, k)
    ensures Complete(p + Text(d)[..k]) == CloseAll(p + Done(d, k), FramesAfter(Run(p).frames, d, k))
    decreases d, 0
  {
    hide Run, Feed, Next, Complete, CloseAll, DocsText, EntriesText, DoneDocs, DoneEntries, BuriedDocs, BuriedEntries;
    var st := Run(p);
    if !IsContainer(d) {
      CompleteScalar(p, d, k);
    } else if k == |Text(d)| {
      assert Text(d)[..k] == Text(d);
      CompleteWhole(p, d);
    } else {
      match d
      case Arr(items) => CompleteArray(p, items, k);
      case Obj(members) => CompleteObject(p, members, k);
    }
  }

  lemma {:induction false} CompleteArray(p: string, items: Docs, k: nat)
    requires AtValue(Run(p)) && ValidDocs(items) && 0 < k < |Text(Arr(items))| && !IsBuried(Arr(items), k)
    ensures Complete(p + Text(Arr(items))[..k]) == CloseAll(p + Done(Arr(items), k), Run(p).frames)
    decreases items, 1
  {
    hide Run, Feed, Next, Complete, CloseAll, DocsText, DoneDocs, BuriedDocs;
    var (st, inner) := (Run(p), p + ['[']);
    ArrayCut(items, k);
    RunSnoc(p, '[');
    OpenArray(st);
    assert p + (['['] + DocsText(items)[..k - 1]) == inner + DocsText(items)[..k - 1];
    if k == 1 {
      assert DocsText(items)[..0] == [] && inner + [] == inner;
      EmptyArray(p);
    } else {
      CompleteDocs(inner, items, k - 1);
    }
    assert Next(st, '[').frames[..|st.frames|] == st.frames;
    assert inner + DoneDocs(items, k - 1) + [']'] == p + (['['] + DoneDocs(items, k - 1) + [']']);
  }

  lemma {:induction false} CompleteObject(p: string, members: Entries, k: nat)
    requires AtValue(Run(p)) && ValidEntries(members) && 0 < k < |Text(Obj(members))| && !IsBuried(Obj(members), k)
    ensures Complete(p + Text(Obj(members))[..k]) == CloseAll(p + Done(Obj(members), k), Run(p).frames)
    decreases members, 3
  {
    hide Run, Feed, Next, Complete, CloseAll, EntriesText, DoneEntries, BuriedEntries;
    var (st, inner) := (Run(p), p + ['{']);
    ObjectCut(members, k);
    RunSnoc(p, '{');
    OpenObject(st);
    assert p + (['{'] + EntriesText(members)[..k - 1]) == inner + EntriesText(members)[..k - 1];
    if k == 1 {
      assert EntriesText(members)[..0] == [] && inner + [] == inner;
      EmptyObject(p);
    } else {
      CompleteEntries(inner, members, k - 1);
    }
    assert Next(st, '{').frames[..|st.frames|] == st.frames;
    assert inner + DoneEntries(members, k - 1) + ['}'] == p + (['{'] + DoneEntries(members, k - 1) + ['}']);
  }

  lemma EmptyArray(p: string)
    requires AtValue(Run(p))
    ensures Complete(p + ['[']) == CloseAll(p + ['['] + DoneDocs(NoDocs, 0) + [']'], Run(p).frames)
    ensures forall ds :: DoneDocs(ds, 0) == []
  {
    hide Run, Complete, CloseAll, Fill;
    var (cut, st) := (p + ['['], Run(p));
    RunSnoc(p, '[');
    OpenArray(st);
    CompleteOutside(cut);
    PopFrame(cut, Run(cut).frames);
    FillPlain(cut, Frame(ArrayKind, ValueDue));
    assert Run(cut).frames[..|st.frames|] == st.frames;
    assert cut + [] == cut;
  }

  lemma EmptyObject(p: string)
    requires AtValue(Run(p))
    ensures Complete(p + ['{']) == CloseAll(p + ['{'] + DoneEntries(NoEntries, 0) + ['}'], Run(p).frames)
    ensures forall es :: DoneEntries(es, 0) == []
  {
    hide Run, Complete, CloseAll, Fill;
    var (cut, st) := (p + ['{'], Run(p));
    RunSnoc(p, '{');
    OpenObject(st);
    CompleteOutside(cut);
    PopFrame(cut, Run(cut).frames);
    FillPlain(cut, Frame(ObjectKind, KeyOrValue));
    assert Run(cut).frames[..|st.frames|] == st.frames;
    assert cut + [] == cut;
  }

  /** The state and text right after an item and its comma. */
  lemma AfterItem(p: string, d: Doc)
    requires AtValue(Run(p)) && Run(p).frames != [] && Valid(d)
    ensures Run(p + Text(d) + [',']) ==
            Advance(Run(p), |Text(d)| + 1).(frames :=
                WithLast(Run(p).frames, if InArray(Run(p)) then ValueDue else KeyOrValue))
  {
    hide Run, Feed, Text, Next;
    RunAppend(p, Text(d));
    FeedWhole(Run(p), d);
    RunSnoc(p + Text(d), ',');
    AfterDocComma(Run(p), d);
  }

  lemma DanglingComma(p: string, d: Doc)
    requires AtValue(Run(p)) && InArray(Run(p)) && Valid(d)
    ensures Complete(p + Text(d) + [',']) == CloseAll(p + Text(d) + [']'], Run(p).frames[..|Run(p).frames| - 1])
  {
    hide Run, Complete, CloseAll, Fill, Text;
    var cut := p + Text(d) + [','];
    AfterItem(p, d);
    AfterDocComma(Run(p), d);
    CompleteOutside(cut);
    PopFrame(cut, Run(p).frames);
    TextEndsPlain(d);
    PlainAfter(p, Text(d));
    FillComma(p + Text(d), Run(p).frames[|Run(p).frames| - 1]);
  }

  lemma {:induction false} CompleteDocs(p: string, ds: Docs, k: nat)
    requires AtValue(Run(p)) && InArray(Run(p)) && ValidDocs(ds) && 0 < k <= |DocsText(ds)| && !BuriedDocs(ds, k)
    ensures Complete(p + DocsText(ds)[..k]) ==
            CloseAll(p + DoneDocs(ds, k) + [']'], Run(p).frames[..|Run(p).frames| - 1])
    decreases ds, 0
  {
    hide Run, Complete, CloseAll, Text, Done, IsBuried;
    DocsCut(ds, k);
    var w := |Text(ds.head)|;
    if k <= w {
      CompleteDoc(p, ds.head, k);
      PopArray(p, Run(p), ds.head, k);
    } else {
      PastItem(p, ds, k);
      var next := p + Text(ds.head) + [','];
      AfterItem(p, ds.head);
      AfterDocComma(Run(p), ds.head);
      hide DocsText, DoneDocs;
      if k == w + 1 {
        DanglingComma(p, ds.head);
      } else {
        CompleteDocs(next, ds.tail, k - w - 1);
      }
    }
  }

  /** A cut beyond the first item, seen from after its comma. */
  lemma PastItem(p: string, ds: Docs, k: nat)
    requires ds.MoreDocs? && |Text(ds.head)| < k <= |DocsText(ds)|
    ensures var (next, j) := (p + Text(ds.head) + [','], k - |Text(ds.head)| - 1);
            && ds.tail.MoreDocs? && j <= |DocsText(ds.tail)|
            && (!BuriedDocs(ds, k) ==> j == 0 || !BuriedDocs(ds.tail, j))
            && p + DocsText(ds)[..k] == (if j == 0 then next else next + DocsText(ds.tail)[..j])
            && p + DoneDocs(ds, k) + [']'] ==
               (if j == 0 then p + Text(ds.head) else next + DoneDocs(ds.tail, j)) + [']']
  {
    hide Text, Done, IsBuried;
    DocsCut(ds, k);
    var (next, j) := (p + Text(ds.head) + [','], k - |Text(ds.head)| - 1);
    var rest := DocsText(ds.tail)[..j];
    assert p + (Text(ds.head) + ([','] + rest)) == next + rest;
    if j == 0 {
      assert next + rest == next;
    } else {
      assert next + DoneDocs(ds.tail, j) == p + (Text(ds.head) + [','] + DoneDocs(ds.tail, j));
    }
  }

  lemma CompleteKey(p: string, key: string, k: nat)
    requires AtKey(Run(p)) && 0 < k <= |KeyText(key)|
    ensures Complete(p + KeyText(key)[..k]) ==
            CloseAll(p + (if k < |Quoted(key)| then ClosedString(key, k) + ": null"
                          else if k == |Quoted(key)| then Quoted(key) + ": null"
                          else KeyText(key) + "null") + ['}'],
                     Run(p).frames[..|Run(p).frames| - 1])
  {
    hide Run, Feed, Complete, CloseAll, Quoted, IntoEscape, EscapeText, Fill;
    var (st, q, cut) := (Run(p), |Quoted(key)|, KeyText(key)[..k]);
    var outer := st.frames[..|st.frames| - 1];
    RunAppend(p, cut);
    if k < q {
      assert cut == Quoted(key)[..k];
      FeedCutQuoted(st, key, k);
      CompleteString(p, key, k);
      CloseKey(p + ClosedString(key, k), st.frames, Colon);
      assert p + ClosedString(key, k) + ": null" == p + (ClosedString(key, k) + ": null");
    } else if k == q {
      assert cut == Quoted(key) + [] == Quoted(key);
      FeedQuoted(st, key, []);
      FeedEmpty(Advance(st, q).(frames := CloseString(st.frames)));
      CompleteOutside(p + cut);
      CloseKey(p + cut, st.frames, Colon);
      assert p + cut + ": null" == p + (Quoted(key) + ": null");
    } else {
      assert cut == KeyText(key) + [] == KeyText(key);
      FeedKeyText(st, key, []);
      FeedEmpty(AfterKey(st, key));
      CompleteOutside(p + cut);
      CloseKey(p + cut, st.frames, ValueDue);
      assert p + cut + "null" == p + (KeyText(key) + "null");
    }
  }

  lemma CloseKey(text: string, frames: seq<Frame>, due: Expect)
    requires frames != [] && frames[|frames| - 1] == Frame(ObjectKind, KeyOrValue)
    requires due == Colon || (due == ValueDue && EndsPlain(text))
    ensures CloseString(frames) == WithLast(frames, Colon)
    ensures CloseAll(text, WithLast(frames, due)) ==
            CloseAll(text + (if due == Colon then ": null" else "null") + ['}'], frames[..|frames| - 1])
  {
    hide CloseAll, Fill;
    var g := WithLast(frames, due);
    PopFrame(text, g);
    FillPlain(text, Frame(ObjectKind, due));
    assert g[..|frames| - 1] == frames[..|frames| - 1];
  }

  lemma {:induction false} CompleteEntries(p: string, es: Entries, k: nat)
    requires AtKey(Run(p)) && ValidEntries(es) && 0 < k <= |EntriesText(es)| && !BuriedEntries(es, k)
    ensures Complete(p + EntriesText(es)[..k]) ==
            CloseAll(p + DoneEntries(es, k) + ['}'], Run(p).frames[..|Run(p).frames| - 1])
    decreases es, 2
  {
    hide Run, Complete, CloseAll, Text, Done, KeyText, Feed, Quoted, AfterKey;
    EntriesCut(es, k);
    var (n, w) := (|KeyText(es.key)|, |Text(es.value)|);
    KeyTextLength(es.key);
    if k <= n {
      CompleteKey(p, es.key, k);
    } else {
      RunAppend(p, KeyText(es.key));
      FeedKeyWhole(Run(p), es.key);
      if k <= n + w {
        CompleteOneMember(p, es, k);
      } else {
        CompleteLater(p, es, k);
      }
    }
  }

  /** Within the value of a member. */
  lemma {:induction false} CompleteOneMember(p: string, es: Entries, k: nat)
    requires AtKey(Run(p)) && ValidEntries(es) && es.MoreEntries? && k <= |EntriesText(es)| && !BuriedEntries(es, k)
    requires 0 < k - |KeyText(es.key)| <= |Text(es.value)|
    requires Run(p + KeyText(es.key)) == AfterKey(Run(p), es.key)
    ensures Complete(p + EntriesText(es)[..k]) ==
            CloseAll(p + DoneEntries(es, k) + ['}'], Run(p).frames[..|Run(p).frames| - 1])
    decreases es, 1
  {
    hide Run, Complete, CloseAll, Text, KeyText, AfterKey, DoneEntries, DoneMember;
    EntriesCut(es, k);
    DoneAtMember(es, k);
    AfterKeyIsValue(Run(p), es.key);
    var (inner, j) := (p + KeyText(es.key), k - |KeyText(es.key)|);
    CompleteMember(inner, es.value, j);
    assert p + (KeyText(es.key) + Text(es.value)[..j]) == inner + Text(es.value)[..j];
    assert inner + DoneMember(es.value, j) + ['}'] == p + (KeyText(es.key) + DoneMember(es.value, j)) + ['}'];
  }

  /** Past a member and its comma. */
  lemma {:induction false} CompleteLater(p: string, es: Entries, k: nat)
    requires AtKey(Run(p)) && ValidEntries(es) && es.MoreEntries? && k <= |EntriesText(es)| && !BuriedEntries(es, k)
    requires k > |KeyText(es.key)| + |Text(es.value)|
    requires Run(p + KeyText(es.key)) == AfterKey(Run(p), es.key)
    ensures Complete(p + EntriesText(es)[..k]) ==
            CloseAll(p + DoneEntries(es, k) + ['}'], Run(p).frames[..|Run(p).frames| - 1])
    decreases es, 1
  {
    hide Run, Complete, CloseAll, Text, Done, KeyText, Feed, Quoted, DoneEntries;
    EntriesCut(es, k);
    DoneAfterComma(es, k);
    var (st, inner) := (Run(p), p + KeyText(es.key));
    AfterKeyIsValue(st, es.key);
    AfterItem(inner, es.value);
    var next := inner + Text(es.value) + [','];
    var m := k - |KeyText(es.key)| - |Text(es.value)| - 1;
    var (rest, done) := (EntriesText(es.later)[..m], DoneEntries(es.later, m));
    assert p + (KeyText(es.key) + (Text(es.value) + ([','] + rest))) == next + rest;
    if m == 0 {
      assert next + [] == next;
      ObjectComma(next, st.frames);
    } else {
      CompleteEntries(next, es.later, m);
    }
    assert next + done + ['}'] == p + (KeyText(es.key) + Text(es.value) + [','] + done) + ['}'];
  }

  lemma KeyTextLength(key: string)
    ensures |KeyText(key)| == |Quoted(key)| + 1
  {
  }

  lemma FeedKeyWhole(st: Scan, key: string)
    requires AtKey(st)
    ensures Feed(st, KeyText(key)) == AfterKey(st, key)
  {
    hide Feed, KeyText;
    FeedKeyText(st, key, []);
    assert KeyText(key) + [] == KeyText(key);
    FeedEmpty(AfterKey(st, key));
  }

  lemma {:induction false} CompleteMember(p: string, d: Doc, k: nat)
    requires AtValue(Run(p)) && InObjectValue(Run(p)) && Valid(d) && 0 < k <= |Text(d)|
    requires IsContainer(d) ==> k == |Text(d)|
    ensures Complete(p + Text(d)[..k]) == CloseAll(p + DoneMember(d, k) + ['}'], Run(p).frames[..|Run(p).frames| - 1])
    decreases d, 1
  {
    hide Run, Complete, CloseAll, Text, Done, FramesAfter, IsBuried;
    WholeIsNotBuried(d, k);
    CompleteDoc(p, d, k);
    PopObject(p, Run(p), d, k);
  }

  lemma DoneAtMember(es: Entries, k: nat)
    requires es.MoreEntries? && k <= |EntriesText(es)| && 0 < k - |KeyText(es.key)| <= |Text(es.value)|
    ensures DoneEntries(es, k) ==
            KeyText(es.key) + DoneMember(es.value, k - |KeyText(es.key)|)
  {
    hide DoneMember, KeyText, Text;
    KeyTextLength(es.key);
  }

  lemma DoneAfterComma(es: Entries, k: nat)
    requires es.MoreEntries? && |KeyText(es.key)| + |Text(es.value)| < k <= |EntriesText(es)|
    ensures var rest := k - |KeyText(es.key)| - |Text(es.value)| - 1;
            && rest <= |EntriesText(es.later)|
            && DoneEntries(es, k) == KeyText(es.key) + Text(es.value) + [','] + DoneEntries(es.later, rest)
            && DoneEntries(es.later, 0) == []
  {
    hide Done, KeyText, Text;
    KeyTextLength(es.key);
    EntriesCut(es, k);
  }

  lemma WholeIsNotBuried(d: Doc, k: nat)
    requires k == |Text(d)| || !IsContainer(d)
    ensures !IsBuried(d, k)
  {
  }

  lemma ObjectComma(cut: string, frames: seq<Frame>)
    requires frames != [] && frames[|frames| - 1] == Frame(ObjectKind, KeyOrValue)
    requires Calm(Run(cut)) && Run(cut).literal.None? && Run(cut).frames == frames
    ensures Complete(cut) == CloseAll(cut + ['}'], frames[..|frames| - 1])
  {
    hide Run, Complete, CloseAll, Fill;
    CompleteOutside(cut);
    PopFrame(cut, frames);
    FillPlain(cut, frames[|frames| - 1]);
  }
}
