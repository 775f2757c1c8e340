/** What the client shows at every cut of a document. */
module DocumentStreaming {
  import opened JsonText
  import opened JsonRepair
  import opened JsonGrammar
  import opened PartialJson
  import opened PartialJsonShape
  import opened StreamingParse
  import opened FlatFields
  import opened FlatCutsExact
  import opened NumberCuts
  import opened NestedCuts
  import opened Documents
  import opened DocumentCuts
  import opened DocumentCompletion
  import opened DocumentPreviews

  lemma {:induction false} NoQuoteNoRepair(s: string)
    requires '"' !in s
    ensures Repair(s, false) == s
  {
    if s != [] {
      NoQuoteNoRepair(s[1..]);
      assert s == [s[0]] + s[1..];
    }
  }

  lemma NotBlank(d: Doc, k: nat)
    requires Valid(d) && 0 < k <= |Text(d)|
    ensures !IsWhitespace(Text(d)[..k][0])
  {
    hide Text;
    TextStart(d);
  }

  /** A proper cut is still open, or needs no repair. */
  lemma OpenOrClean(d: Doc, k: nat)
    requires Valid(d) && 0 < k < |Text(d)|
    ensures var cut := Text(d)[..k];
            Run(cut).inString || Run(cut).frames != [] || RepairJson(cut) == cut
  {
    hide Run, Feed, Quoted, IsNumber, Repair, IntoEscape;
    var cut := Text(d)[..k];
    RunNothing();
    RunIsFeed(cut);
    match d
    case Num(text) =>
      NoQuoteInNumber(text);
      NoQuoteNoRepair(cut);
    case Str(s) => FeedCutQuoted(START, s, k);
    case Arr(_) => CutDoc(START, d, k);
    case Obj(_) => CutDoc(START, d, k);
    case _ => NoQuoteNoRepair(cut);
  }

  lemma NoQuoteInNumber(text: string)
    requires IsNumber(text)
    ensures '"' !in text
  {
  }

  /** At every cut that reads, the streaming parse shows the preview. */
  lemma StreamedCut(d: Doc, k: nat)
    requires Valid(d) && 0 < k <= |Text(d)| && Reads(d, k)
    ensures ParseStreaming(Text(d)[..k]) == Preview(d, k)
  {
    hide Run, Complete, Parse, Text, Reads, Preview, Repair;
    var cut := Text(d)[..k];
    NotBlank(d, k);
    CompletionReadsExactly(d, k);
    if k == |Text(d)| {
      WholeParses(d);
      assert cut == Text(d);
      AcceptedTextIsComplete(cut);
    } else if Parse(cut).Some? {
      AcceptedTextIsComplete(cut);
    } else {
      OpenOrClean(d, k);
      if Run(cut).inString || Run(cut).frames != [] {
        OpenTextIsRejected(cut);
      }
    }
  }

  lemma WholeParses(d: Doc)
    requires Valid(d)
    ensures Parse(Text(d)) == Some(JsonOf(d))
  {
    hide ReadValue;
    ReadDoc(d, []);
    assert Text(d) + [] == Text(d);
  }

  /** For a cut that needs no repair the four stages agree: the preview when
      the cut reads, and the empty object otherwise. */
  lemma StreamedCutExactly(d: Doc, k: nat)
    requires Valid(d) && k <= |Text(d)| && EscapeClean(Text(d)[..k], false)
    ensures ParseStreaming(Text(d)[..k]) == if 0 < k && Reads(d, k) then Preview(d, k) else EMPTY_OBJECT
  {
    hide Run, Complete, Parse, Text, Reads, Preview, Repair, EscapeClean;
    var cut := Text(d)[..k];
    if 0 < k && Reads(d, k) {
      StreamedCut(d, k);
    } else {
      CompletionReadsExactly(d, k);
      RepairIsCleaning(cut);
      if Parse(cut).Some? {
        AcceptedTextIsComplete(cut);
      }
    }
  }

  /** Opening a container as the value of any member buries every cut until it
      is closed. */
  lemma OpenMemberIsBuried(key: string, opener: char)
    requires opener == '{' || opener == '['
    ensures var cut := ['{'] + (KeyText(key) + [opener]);
            Buried(Run(cut).frames) && ParseStreaming(cut) == EMPTY_OBJECT
  {
    hide Run, Feed, KeyText, ParseStreaming;
    var cut := ['{'] + (KeyText(key) + [opener]);
    RunNothing();
    RunIsFeed(cut);
    FeedCons(START, '{', KeyText(key) + [opener]);
    OpenObject(START);
    var st := Next(START, '{');
    FeedKeyText(st, key, [opener]);
    AfterKeyIsValue(st, key);
    var at := AfterKey(st, key);
    FeedOne(at, opener);
    BuriedAbove(at, Next(at, opener));
    NestedCutFallsBack(cut);
  }

  /** A bare word as the value of any member, even a whole one, previews
      nothing until its comma or brace arrives. */
  lemma WordMemberFallsBack(key: string, word: Doc, k: nat)
    requires IsWord(word) && 0 < k <= |Text(word)|
    ensures ParseStreaming(['{'] + (KeyText(key) + Text(word)[..k])) == EMPTY_OBJECT
  {
    hide ParseStreaming, Text, EscapeClean, Quoted, KeyText;
    var d := Obj(MoreEntries(key, word, NoEntries));
    var m := 1 + |KeyText(key)| + k;
    WordMemberText(key, word, k);
    WordMemberIsClean(key, Text(word)[..k]);
    StreamedCutExactly(d, m);
  }

  lemma WordMemberText(key: string, word: Doc, k: nat)
    requires IsWord(word) && 0 < k <= |Text(word)|
    ensures var d := Obj(MoreEntries(key, word, NoEntries));
            var m := 1 + |KeyText(key)| + k;
            && m < |Text(d)| && Text(d)[..m] == ['{'] + (KeyText(key) + Text(word)[..k])
            && Valid(d) && !Reads(d, m) && '"' !in Text(word)
  {
    hide KeyText, Quoted;
    KeyTextLength(key);
    var es := MoreEntries(key, word, NoEntries);
    assert EntriesText(es) == KeyText(key) + Text(word);
    assert Text(Obj(es)) == ['{'] + EntriesText(es) + ['}'];
    assert ValidEntries(es.later) && Valid(word);
    assert |KeyText(key)| > 0;
    assert !EntriesRead(es, |KeyText(key)| + k);
    assert !Reads(Obj(es), 1 + |KeyText(key)| + k);
  }

  lemma WordMemberIsClean(key: string, w: string)
    requires '"' !in w
    ensures EscapeClean(['{'] + (KeyText(key) + w), false)
  {
    var t := [':'] + w;
    assert (['{'] + (KeyText(key) + w))[1..] == Quoted(key) + t;
    CleanQuoted(key, t);
    NoQuoteNoRepair(t);
    RepairFixesExactlyClean(t, false);
  }
}
