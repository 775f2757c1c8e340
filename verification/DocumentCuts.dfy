/** Every cut of the compact text of a document: the containers it leaves open
    and the text that completes it. */
module DocumentCuts {
  import opened JsonText
  import opened PartialJson
  import opened PartialJsonShape
  import opened StreamingParse
  import opened FlatFields
  import opened NumberCuts
  import opened NestedCuts
  import opened Documents

  // ---------------------------------------------------------------------
  // The pieces of a cut
  // ---------------------------------------------------------------------

  lemma DocsCut(ds: Docs, k: nat)
    requires ds.MoreDocs? && k <= |DocsText(ds)|
    ensures var w := |Text(ds.head)|;
            && (k <= w ==> DocsText(ds)[..k] == Text(ds.head)[..k])
            && (k > w ==> ds.tail.MoreDocs? && k - w - 1 <= |DocsText(ds.tail)|
                          && DocsText(ds)[..k] == Text(ds.head) + ([','] + DocsText(ds.tail)[..k - w - 1]))
  {
    hide Text;
    var w := |Text(ds.head)|;
    if k > w {
      assert DocsText(ds) == Text(ds.head) + ([','] + DocsText(ds.tail));
    }
  }

  lemma EntriesCut(es: Entries, k: nat)
    requires es.MoreEntries? && k <= |EntriesText(es)|
    ensures var n := |KeyText(es.key)|;
            var w := |Text(es.value)|;
            && (k <= n ==> EntriesText(es)[..k] == KeyText(es.key)[..k])
            && (n < k <= n + w ==> EntriesText(es)[..k] == KeyText(es.key) + Text(es.value)[..k - n])
            && (k > n + w ==> es.later.MoreEntries? && k - n - w - 1 <= |EntriesText(es.later)|
                              && EntriesText(es)[..k] ==
                                 KeyText(es.key) + (Text(es.value) + ([','] + EntriesText(es.later)[..k - n - w - 1])))
  {
    hide Text, KeyText;
    var n := |KeyText(es.key)|;
    var w := |Text(es.value)|;
    if k > n + w {
      assert EntriesText(es) == KeyText(es.key) + (Text(es.value) + ([','] + EntriesText(es.later)));
    } else if es.later.MoreEntries? {
      assert EntriesText(es) == KeyText(es.key) + (Text(es.value) + ([','] + EntriesText(es.later)));
    }
  }

  lemma ArrayCut(items: Docs, k: nat)
    requires 0 < k < |Text(Arr(items))|
    ensures k - 1 <= |DocsText(items)| && Text(Arr(items))[..k] == ['['] + DocsText(items)[..k - 1]
  {
  }

  lemma ObjectCut(members: Entries, k: nat)
    requires 0 < k < |Text(Obj(members))|
    ensures k - 1 <= |EntriesText(members)| && Text(Obj(members))[..k] == ['{'] + EntriesText(members)[..k - 1]
  {
  }

  // ---------------------------------------------------------------------
  // Containers left open
  // ---------------------------------------------------------------------

  /** The cut lies strictly inside a container that is the value of an object
      member. */
  predicate IsBuried(d: Doc, k: nat) {
    1 < k < |Text(d)| &&
    match d
    case Arr(items) => BuriedDocs(items, k - 1)
    case Obj(members) => BuriedEntries(members, k - 1)
    case _ => false
  }

  predicate BuriedDocs(ds: Docs, k: nat) {
    ds.MoreDocs? &&
    var w := |Text(ds.head)|;
    if k <= w then IsBuried(ds.head, k) else BuriedDocs(ds.tail, k - w - 1)
  }

  predicate BuriedEntries(es: Entries, k: nat) {
    es.MoreEntries? && k > |KeyText(es.key)| &&
    var j := k - |KeyText(es.key)|;
    var w := |Text(es.value)|;
    if j < w then IsContainer(es.value)
    else j > w && BuriedEntries(es.later, j - w - 1)
  }

  /** All containers open before are still open, and all but the innermost of
      them untouched. */
  predicate Above(st: Scan, now: Scan) {
    && |now.frames| >= |st.frames|
    && (st.frames != [] ==> now.frames[..|st.frames| - 1] == st.frames[..|st.frames| - 1])
  }

  lemma FeedCutQuoted(st: Scan, s: string, k: nat)
    requires Calm(st) && st.literal.None? && 0 < k < |Quoted(s)|
    ensures Feed(st, Quoted(s)[..k]) == Advance(st, k).(inString := true, escaping := IntoEscape(s, k - 1) == 1)
  {
    hide EscapeText, Feed, IntoEscape;
    var cut := EscapeText(s)[..k - 1];
    assert Quoted(s)[..k] == ['"'] + cut;
    FeedCons(st, '"', cut);
    FeedCutString(Next(st, '"'), s, k - 1);
  }

  lemma FeedCutWord(st: Scan, d: Doc, k: nat)
    requires AtValue(st) && IsWord(d) && k <= |Text(d)|
    ensures Feed(st, Text(d)[..k]) == Advance(st, k)
  {
    hide Feed;
    FeedLetters(st, Text(d)[..k]);
  }

  lemma FeedCutNumber(st: Scan, s: string, k: nat)
    requires AtValue(st) && IsNumber(s) && 0 < k <= |s|
    ensures Feed(st, s[..k]) == Advance(st, k).(literal := Some(st.pos))
  {
    hide IsNumber, Feed;
    FeedNumberText(st, s, k, []);
    assert s[..k] + [] == s[..k];
    FeedEmpty(Advance(st, k).(literal := Some(st.pos)));
  }

  lemma FeedEmpty(st: Scan)
    ensures Feed(st, []) == st
  {
  }

  lemma FeedWhole(st: Scan, d: Doc)
    requires AtValue(st) && Valid(d)
    ensures Feed(st, Text(d)) == AfterDoc(st, d)
  {
    hide Feed, Text;
    FeedDoc(st, d, []);
    assert Text(d) + [] == Text(d);
    FeedEmpty(AfterDoc(st, d));
  }

  lemma AfterDocAbove(st: Scan, d: Doc)
    ensures Above(st, AfterDoc(st, d))
  {
    hide Text;
  }

  lemma ScalarAbove(st: Scan, d: Doc, k: nat)
    requires AtValue(st) && Valid(d) && !IsContainer(d) && 0 < k < |Text(d)|
    ensures Feed(st, Text(d)[..k]).frames == st.frames
  {
    hide Feed, IsNumber, Quoted, IntoEscape;
    match d
    case Num(text) => FeedCutNumber(st, text, k);
    case Str(s) => FeedCutQuoted(st, s, k);
    case _ => FeedCutWord(st, d, k);
  }

  /** Where the scanner stands after a cut of a document: above where it
      started, and with an unfinished member value when the cut is buried. */
  lemma {:induction false} CutDoc(st: Scan, d: Doc, k: nat)
    requires AtValue(st) && Valid(d) && k <= |Text(d)|
    ensures var now := Feed(st, Text(d)[..k]);
            && Above(st, now)
            && (IsContainer(d) && 0 < k < |Text(d)| ==> st.frames < now.frames)
            && (IsBuried(d, k) ==> Buried(now.frames))
    decreases d, 0
  {
    hide Feed, Next, Text, BuriedDocs, BuriedEntries, Buried, Above;
    if k == 0 {
      FeedEmpty(st);
      assert Text(d)[..0] == [];
      AboveItself(st);
    } else if k == |Text(d)| {
      FeedWhole(st, d);
      AfterDocAbove(st, d);
      assert Text(d)[..k] == Text(d);
    } else {
      match d
      case Arr(items) =>
        ArrayCut(items, k);
        FeedCons(st, '[', DocsText(items)[..k - 1]);
        OpenArray(st);
        CutDocs(Next(st, '['), items, k - 1);
        OpenAbove(st, Next(st, '['), Feed(st, Text(d)[..k]));
      case Obj(members) =>
        ObjectCut(members, k);
        FeedCons(st, '{', EntriesText(members)[..k - 1]);
        OpenObject(st);
        CutEntries(Next(st, '{'), members, k - 1);
        OpenAbove(st, Next(st, '{'), Feed(st, Text(d)[..k]));
      case _ =>
        ScalarAbove(st, d, k);
        SameAbove(st, Feed(st, Text(d)[..k]));
    }
  }

  lemma AboveItself(st: Scan)
    ensures Above(st, st)
  {
  }

  lemma SameAbove(st: Scan, now: Scan)
    requires st.frames == now.frames
    ensures Above(st, now)
  {
  }

  lemma OpenAbove(st: Scan, inner: Scan, now: Scan)
    requires |inner.frames| == |st.frames| + 1 && st.frames < inner.frames && Above(inner, now)
    ensures st.frames < now.frames && Above(st, now)
  {
    assert inner.frames[..|st.frames|] == st.frames;
    assert now.frames[..|st.frames|] == st.frames;
  }

  lemma {:induction false} CutDocs(st: Scan, ds: Docs, k: nat)
    requires AtValue(st) && InArray(st) && ValidDocs(ds) && k <= |DocsText(ds)|
    ensures var now := Feed(st, DocsText(ds)[..k]);
            Above(st, now) && (BuriedDocs(ds, k) ==> Buried(now.frames))
    decreases ds, 0
  {
    hide Feed, Next, Text, Buried, IsBuried;
    if ds.NoDocs? {
      FeedEmpty(st);
      assert DocsText(ds)[..k] == [];
    } else {
      var w := |Text(ds.head)|;
      DocsCut(ds, k);
      if k <= w {
        CutDoc(st, ds.head, k);
      } else {
        var rest := DocsText(ds.tail)[..k - w - 1];
        FeedDoc(st, ds.head, [','] + rest);
        FeedCons(AfterDoc(st, ds.head), ',', rest);
        AfterDocComma(st, ds.head);
        CutDocs(Advance(st, w + 1), ds.tail, k - w - 1);
      }
    }
  }

  lemma CutKey(st: Scan, key: string, k: nat)
    requires AtKey(st) && k <= |KeyText(key)|
    ensures Above(st, Feed(st, KeyText(key)[..k]))
  {
    hide Feed, Quoted, IntoEscape;
    var q := |Quoted(key)|;
    if k == 0 {
      FeedEmpty(st);
      assert KeyText(key)[..0] == [];
    } else if k < q {
      assert KeyText(key)[..k] == Quoted(key)[..k];
      FeedCutQuoted(st, key, k);
    } else if k == q {
      assert KeyText(key)[..k] == Quoted(key) + [];
      FeedQuoted(st, key, []);
      FeedEmpty(Advance(st, q).(frames := CloseString(st.frames)));
    } else {
      assert KeyText(key)[..k] == KeyText(key) + [];
      FeedKeyText(st, key, []);
      FeedEmpty(AfterKey(st, key));
    }
  }

  lemma BuriedAbove(at: Scan, now: Scan)
    requires InObjectValue(at) && at.frames[|at.frames| - 1].due == ValueDue && at.frames < now.frames
    ensures Buried(now.frames)
  {
    var i := |at.frames| - 1;
    assert now.frames[i] == at.frames[i];
  }

  lemma {:induction false} CutEntries(st: Scan, es: Entries, k: nat)
    requires AtKey(st) && ValidEntries(es) && k <= |EntriesText(es)|
    ensures var now := Feed(st, EntriesText(es)[..k]);
            Above(st, now) && (BuriedEntries(es, k) ==> Buried(now.frames))
    decreases es, 0
  {
    hide Feed, Next, Text, KeyText, Buried, IsBuried;
    if es.NoEntries? {
      FeedEmpty(st);
      assert EntriesText(es)[..k] == [];
    } else {
      var (n, w) := (|KeyText(es.key)|, |Text(es.value)|);
      EntriesCut(es, k);
      var at := AfterKey(st, es.key);
      AfterKeyIsValue(st, es.key);
      if k <= n {
        CutKey(st, es.key, k);
      } else if k <= n + w {
        var cut := Text(es.value)[..k - n];
        FeedKeyText(st, es.key, cut);
        CutDoc(at, es.value, k - n);
        if BuriedEntries(es, k) {
          BuriedAbove(at, Feed(at, cut));
        }
      } else {
        var rest := EntriesText(es.later)[..k - n - w - 1];
        FeedKeyText(st, es.key, Text(es.value) + ([','] + rest));
        FeedDoc(at, es.value, [','] + rest);
        FeedCons(AfterDoc(at, es.value), ',', rest);
        AfterDocComma(at, es.value);
        CutEntries(Advance(st, n + w + 1), es.later, k - n - w - 1);
      }
    }
  }
}
