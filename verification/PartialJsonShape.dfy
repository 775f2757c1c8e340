/** What the completed text looks like to the scanner and as a bracket word,
    for every input. */
module PartialJsonShape {
  import opened JsonText
  import opened PartialJson

  // ---------------------------------------------------------------------
  // Feeding text to a scanner state
  // ---------------------------------------------------------------------

  function Feed(st: Scan, t: string): Scan
    decreases t
  {
    if t == [] then st else Feed(Next(st, t[0]), t[1..])
  }

  lemma {:induction false} FeedAppend(st: Scan, a: string, b: string)
    ensures Feed(st, a + b) == Feed(Feed(st, a), b)
    decreases a
  {
    if a == [] {
      assert a + b == b;
    } else {
      assert (a + b)[1..] == a[1..] + b;
      FeedAppend(Next(st, a[0]), a[1..], b);
    }
  }

  lemma FeedOne(st: Scan, c: char)
    ensures Feed(st, [c]) == Next(st, c)
  {
    assert Feed(st, [c]) == Feed(Next(st, c), [c][1..]);
  }

  lemma {:induction false} RunIsFeed(s: string)
    ensures Run(s) == Feed(START, s)
  {
    if s != [] {
      var n := |s| - 1;
      RunIsFeed(s[..n]);
      assert s == s[..n] + [s[n]];
      FeedAppend(START, s[..n], [s[n]]);
      FeedOne(Feed(START, s[..n]), s[n]);
    }
  }

  lemma RunAppend(a: string, b: string)
    ensures Run(a + b) == Feed(Run(a), b)
  {
    RunIsFeed(a);
    RunIsFeed(a + b);
    FeedAppend(START, a, b);
  }

  lemma RunSnoc(a: string, c: char)
    ensures Run(a + [c]) == Next(Run(a), c)
  {
    assert (a + [c])[..|a|] == a;
  }

  function Kinds(frames: seq<Frame>): (ks: seq<Kind>)
    ensures |ks| == |frames|
  {
    seq(|frames|, i requires 0 <= i < |frames| => frames[i].kind)
  }

  /** Outside any string. */
  predicate Calm(st: Scan) {
    !st.inString && !st.escaping
  }

  /** A character that neither opens nor closes a string or container. */
  predicate IsInert(c: char) {
    c != '"' && c != '{' && c != '[' && c != '}' && c != ']'
  }

  lemma InertNext(st: Scan, c: char)
    requires IsInert(c) && (Calm(st) || (Calm(Next(st, c)) && (st.escaping ==> st.inString)))
    ensures Calm(st) && Calm(Next(st, c)) && Kinds(Next(st, c).frames) == Kinds(st.frames)
  {
  }

  lemma {:induction false} FeedInert(st: Scan, t: string)
    requires Calm(st) && forall i :: 0 <= i < |t| ==> IsInert(t[i])
    ensures Calm(Feed(st, t)) && Kinds(Feed(st, t).frames) == Kinds(st.frames)
    decreases t
  {
    if t != [] {
      InertNext(st, t[0]);
      FeedInert(Next(st, t[0]), t[1..]);
    }
  }

  /** Dropping trailing whitespace or commas keeps the structure. */
  lemma {:induction false} TrimsKeepStructure(s: string)
    requires Calm(Run(s))
    ensures var t := TrimEnd(s); Calm(Run(t)) && Kinds(Run(t).frames) == Kinds(Run(s).frames)
    ensures var t := TrimCommas(s); Calm(Run(t)) && Kinds(Run(t).frames) == Kinds(Run(s).frames)
  {
    if s != [] && (IsWhitespace(s[|s| - 1]) || s[|s| - 1] == ',') {
      RunBounds(s[..|s| - 1]);
      InertNext(Run(s[..|s| - 1]), s[|s| - 1]);
      TrimsKeepStructure(s[..|s| - 1]);
    }
  }

  lemma FillKeepsStructure(text: string, f: Frame)
    requires Calm(Run(text))
    ensures var t := Fill(text, f); Calm(Run(t)) && Kinds(Run(t).frames) == Kinds(Run(text).frames)
  {
    hide Run, Feed, Kinds;
    match f.due
    case Colon =>
      RunAppend(text, ": null");
      FeedInert(Run(text), ": null");
    case ValueDue =>
      TrimsKeepStructure(text);
      TrimsKeepStructure(TrimEnd(text));
      RunAppend(text, "null");
      FeedInert(Run(text), "null");
    case _ =>
  }

  // ---------------------------------------------------------------------
  // The literal under way
  // ---------------------------------------------------------------------

  /** While a literal is under way the containers do not change, and before
      its first character none was under way. */
  lemma {:induction false} LiteralSpan(s: string, k: nat)
    requires Run(s).literal.Some? && Run(s).literal.value <= k <= |s|
    ensures Calm(Run(s[..k])) && Run(s[..k]).frames == Run(s).frames
    ensures Run(s[..k]).literal == if k == Run(s).literal.value then None else Run(s).literal
    decreases |s|
  {
    RunBounds(s);
    var n := |s| - 1;
    if k == |s| {
      assert s[..k] == s;
    } else if Run(s[..n]).literal.Some? {
      RunBounds(s[..n]);
      LiteralSpan(s[..n], k);
      assert s[..n][..k] == s[..k];
    } else {
      RunBounds(s[..n]);
      assert k == n;
    }
  }

  lemma {:induction false} TrimNumberTailIsPrefix(s: string) returns (k: nat)
    ensures k <= |s| && TrimNumberTail(s) == s[..k]
    ensures TrimNumberTail(s[..k]) == s[..k]
  {
    if s != [] && IsTruncatedTail(s[|s| - 1]) {
      k := TrimNumberTailIsPrefix(s[..|s| - 1]);
      assert s[..|s| - 1][..k] == s[..k];
    } else {
      k := |s|;
      assert s[..k] == s;
    }
  }

  lemma FinishString(input: string)
    requires Run(input).inString
    ensures var (text, frames) := Finished(input);
            Calm(Run(text)) && Run(text).frames == frames && Run(text).literal.None?
    ensures Kinds(CloseString(Run(input).frames)) == Kinds(Run(input).frames)
  {
    RunBounds(input);
    hide Run;
    var st := Run(input);
    if st.escaping {
      BeforeBackslash(input);
    }
    var body := if st.escaping then input[..|input| - 1] else input;
    RunBounds(body);
    RunSnoc(body, '"');
  }

  lemma BeforeBackslash(input: string)
    requires Run(input).escaping && input != []
    ensures var st := Run(input[..|input| - 1]);
            st.inString && !st.escaping && st.frames == Run(input).frames && st.literal == Run(input).literal
  {
    hide Run;
    var n := |input| - 1;
    assert input == input[..n] + [input[n]];
    RunBounds(input[..n]);
    RunSnoc(input[..n], input[n]);
    BackslashNext(Run(input[..n]), input[n]);
  }

  lemma BackslashNext(st: Scan, c: char)
    requires Next(st, c).escaping && (st.escaping ==> st.inString)
    ensures st.inString && !st.escaping && st.frames == Next(st, c).frames && st.literal == Next(st, c).literal
  {
  }

  lemma CutLiteral(input: string, ls: nat, k: nat)
    requires Run(input).literal == Some(ls) && ls + k <= |input|
    requires TrimNumberTail(input[ls..][..k]) == input[ls..][..k]
    ensures Calm(Run(input[..ls + k])) && Run(input[..ls + k]).frames == Run(input).frames
    ensures SettledLiteral(input[..ls + k])
  {
    hide Run;
    LiteralSpan(input, ls + k);
    assert input[..ls + k][ls..] == input[ls..][..k];
  }

  lemma FinishLiteral(input: string)
    requires Run(input).literal.Some?
    ensures var (text, frames) := Finished(input);
            Calm(Run(text)) && Run(text).frames == Run(input).frames && SettledLiteral(text)
            && frames == WithLast(Run(input).frames, AfterValue)
  {
    RunBounds(input);
    var ls := Run(input).literal.value;
    var k := TrimNumberTailIsPrefix(input[ls..]);
    assert Finished(input).0 == input[..ls] + TrimNumberTail(input[ls..]) == input[..ls + k];
    CutLiteral(input, ls, k);
  }

  /** The text left once the cut token is finished. */
  lemma FinishTokenState(input: string) returns (text: string, frames: seq<Frame>)
    ensures Finished(input) == (text, frames)
    ensures Calm(Run(text)) && Kinds(Run(text).frames) == Kinds(frames) == Kinds(Run(input).frames)
    ensures SettledLiteral(text)
  {
    text, frames := Finished(input).0, Finished(input).1;
    RunBounds(input);
    if Run(input).inString {
      FinishString(input);
    } else if Run(input).literal.Some? {
      FinishLiteral(input);
    }
  }

  // ---------------------------------------------------------------------
  // Rescan and fixpoint
  // ---------------------------------------------------------------------

  /** The literal under way, if any, is already trimmed. */
  predicate SettledLiteral(s: string) {
    RunBounds(s);
    Run(s).literal.Some? ==>
      TrimNumberTail(s[Run(s).literal.value..]) == s[Run(s).literal.value..]
  }

  /** A text with nothing left to complete. */
  predicate Settled(s: string) {
    Calm(Run(s)) && Run(s).frames == [] && SettledLiteral(s)
  }

  lemma SettledIsComplete(s: string)
    requires Settled(s)
    ensures Complete(s) == s
  {
    RunBounds(s);
    if Run(s).literal.Some? {
      assert s == s[..Run(s).literal.value] + s[Run(s).literal.value..];
    }
  }

  lemma {:induction false} CloseAllSettles(text: string, frames: seq<Frame>)
    requires Calm(Run(text)) && Kinds(Run(text).frames) == Kinds(frames)
    requires frames == [] ==> Settled(text)
    ensures Settled(CloseAll(text, frames))
    decreases |frames|
  {
    hide Run, Fill, Kinds, Settled, Next;
    if frames != [] {
      var n := |frames| - 1;
      var filled := Fill(text, frames[n]);
      FillKeepsStructure(text, frames[n]);
      CloseOne(filled, frames);
      CloseAllSettles(filled + [Closer(frames[n].kind)], frames[..n]);
    }
  }

  lemma CloseOne(filled: string, frames: seq<Frame>)
    requires frames != [] && Calm(Run(filled)) && Kinds(Run(filled).frames) == Kinds(frames)
    ensures var n := |frames| - 1;
            var closed := filled + [Closer(frames[n].kind)];
            && Calm(Run(closed)) && Kinds(Run(closed).frames) == Kinds(frames[..n])
            && (n == 0 ==> Settled(closed))
  {
    hide Run;
    var n := |frames| - 1;
    var c := Closer(frames[n].kind);
    RunSnoc(filled, c);
    RunBounds(filled + [c]);
    assert |Run(filled).frames| == |Kinds(frames)| == n + 1;
    CloserNext(Run(filled), c);
    hide Next;
    assert Kinds(Run(filled).frames)[..n] == Kinds(frames[..n]);
    assert |Run(filled + [c]).frames| == |Kinds(frames[..n])| == n;
  }

  lemma CloserNext(st: Scan, c: char)
    requires Calm(st) && st.frames != [] && (c == '}' || c == ']')
    ensures var next := Next(st, c);
            Calm(next) && next.literal.None? && Kinds(next.frames) == Kinds(st.frames)[..|st.frames| - 1]
  {
  }

  /** For every input the completed text rescans to "outside any string, no
      open container", and completing it again changes nothing. */
  lemma CompletedTextIsSettled(input: string)
    ensures Calm(Run(Complete(input))) && Run(Complete(input)).frames == []
    ensures Complete(Complete(input)) == Complete(input)
  {
    RunBounds(input);
    var text, frames := FinishTokenState(input);
    CloseAllSettles(text, frames);
    SettledIsComplete(Complete(input));
  }

  // ---------------------------------------------------------------------
  // Whitespace at the cut of an array
  // ---------------------------------------------------------------------

  lemma SpaceNext(st: Scan, c: char)
    requires !st.inString && IsWhitespace(c)
    ensures Next(st, c) == st.(pos := st.pos + 1)
  {
  }

  lemma {:induction false} RunSpace(s: string, w: string)
    requires !Run(s).inString && IsBlank(w)
    ensures Run(s + w) == Run(s).(pos := Run(s).pos + |w|)
  {
    hide Run;
    if w == [] {
      assert s + w == s;
    } else {
      var n := |w| - 1;
      RunSpace(s, w[..n]);
      assert s + w == s + w[..n] + [w[n]];
      RunSnoc(s + w[..n], w[n]);
      SpaceNext(Run(s + w[..n]), w[n]);
    }
  }

  lemma {:induction false} TrimSpace(s: string, w: string)
    requires IsBlank(w) && s != [] && !IsWhitespace(s[|s| - 1])
    ensures TrimEnd(s + w) == s
  {
    if w == [] {
      assert s + w == s;
    } else {
      var n := |w| - 1;
      assert (s + w)[..|s + w| - 1] == s + w[..n];
      TrimSpace(s, w[..n]);
    }
  }

  /** Text cut inside an array, outside its strings: where a comma is the last
      thing before any whitespace, both are dropped; otherwise the array is
      closed where the whitespace ends. */
  lemma SpaceInArray(s: string, w: string)
    requires !Run(s).inString && Run(s).frames != [] && IsBlank(w)
    requires Run(s).frames[|Run(s).frames| - 1].kind == ArrayKind
    requires s != [] && !IsWhitespace(s[|s| - 1]) && s[|s| - 1] != ','
    ensures var outer := Run(s).frames[..|Run(s).frames| - 1];
            && Complete(s + [','] + w) == CloseAll(s + "]", outer)
            && (Run(s).literal.None? && Run(s).frames[|outer|].due in {ValueDue, AfterValue} ==>
                  Complete(s + w) == CloseAll(s + w + "]", outer))
  {
    hide Run, CloseAll, TrimEnd;
    var n := |Run(s).frames| - 1;
    RunSnoc(s, ',');
    RunSpace(s + [','], w);
    RunBounds(s + [','] + w);
    TrimSpace(s + [','], w);
    assert TrimCommas(s + [',']) == s by {
      assert (s + [','])[..|s|] == s;
    }
    CloseLast(s + [','] + w, Run(s + [','] + w).frames);
    RunSpace(s, w);
    RunBounds(s + w);
    TrimSpace(s, w);
    CloseLast(s + w, Run(s + w).frames);
    assert s + w + "]" == s + w + [']'];
  }

  lemma CloseLast(text: string, frames: seq<Frame>)
    requires frames != []
    ensures var f := frames[|frames| - 1];
            CloseAll(text, frames) == CloseAll(Fill(text, f) + [Closer(f.kind)], frames[..|frames| - 1])
  {
  }
}
