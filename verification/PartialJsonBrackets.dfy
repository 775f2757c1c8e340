/** The completed text as a bracket word. */
module PartialJsonBrackets {
  import opened JsonText
  import opened PartialJson
  import opened PartialJsonShape

  datatype Bracket = Opens(kind: Kind) | Closes(kind: Kind)

  /** The bracket a character is when read outside strings. */
  function BracketOf(st: Scan, c: char): (b: seq<Bracket>)
    ensures |b| <= 1
  {
    if st.inString then []
    else if c == '{' then [Opens(ObjectKind)]
    else if c == '[' then [Opens(ArrayKind)]
    else if c == '}' then [Closes(ObjectKind)]
    else if c == ']' then [Closes(ArrayKind)]
    else []
  }

  /** The brackets of `s` outside strings, in order. */
  function Brackets(s: string): seq<Bracket> {
    if s == [] then []
    else Brackets(s[..|s| - 1]) + BracketOf(Run(s[..|s| - 1]), s[|s| - 1])
  }

  /** A balanced word, by its grammar: empty, or a matching pair around a
      balanced word followed by a balanced word. */
  datatype Word = Empty | Nest(kind: Kind, inner: Word, rest: Word)

  function Spell(w: Word): seq<Bracket> {
    match w
    case Empty => []
    case Nest(k, inner, rest) => [Opens(k)] + Spell(inner) + [Closes(k)] + Spell(rest)
  }

  ghost predicate Balanced(b: seq<Bracket>) {
    exists w :: Spell(w) == b
  }

  /** No closer outside strings is surplus or of the wrong kind. */
  ghost predicate WellClosed(s: string) {
    forall k :: 0 <= k < |s| ==> CloserFits(Run(s[..k]), s[k])
  }

  predicate CloserFits(st: Scan, c: char) {
    forall kind :: BracketOf(st, c) == [Closes(kind)] ==>
      st.frames != [] && st.frames[|st.frames| - 1].kind == kind
  }

  // ---------------------------------------------------------------------
  // A stack matcher, equivalent to the grammar
  // ---------------------------------------------------------------------

  function Match(b: seq<Bracket>, stack: seq<Kind>): Option<seq<Kind>>
    decreases b
  {
    if b == [] then Some(stack)
    else match b[0]
      case Opens(k) => Match(b[1..], stack + [k])
      case Closes(k) =>
        if stack == [] || stack[|stack| - 1] != k then None
        else Match(b[1..], stack[..|stack| - 1])
  }

  lemma {:induction false} MatchAppend(a: seq<Bracket>, b: seq<Bracket>, stack: seq<Kind>)
    ensures Match(a, stack).None? ==> Match(a + b, stack).None?
    ensures Match(a, stack).Some? ==> Match(a + b, stack) == Match(b, Match(a, stack).value)
    decreases a
  {
    if a == [] {
      assert a + b == b;
    } else {
      assert (a + b)[1..] == a[1..] + b;
      match a[0]
      case Opens(k) => MatchAppend(a[1..], b, stack + [k]);
      case Closes(k) =>
        if stack != [] && stack[|stack| - 1] == k {
          MatchAppend(a[1..], b, stack[..|stack| - 1]);
        }
    }
  }

  lemma {:induction false} SpelledWordMatches(w: Word, stack: seq<Kind>)
    ensures Match(Spell(w), stack) == Some(stack)
    decreases w
  {
    match w
    case Empty =>
    case Nest(k, inner, rest) =>
      SpelledWordMatches(inner, stack + [k]);
      SpelledWordMatches(rest, stack);
      MatchAppend([Opens(k)], Spell(inner), stack);
      assert Match([Opens(k)], stack) == Match([], stack + [k]);
      MatchAppend([Opens(k)] + Spell(inner), [Closes(k)], stack);
      assert (stack + [k])[..|stack|] == stack;
      assert Match([Closes(k)], stack + [k]) == Match([], stack);
      MatchAppend([Opens(k)] + Spell(inner) + [Closes(k)], Spell(rest), stack);
  }

  lemma SpellNested(k: Kind, inner: Word, rest: Word, c: seq<Bracket>, tail: seq<Bracket>)
    ensures Spell(Nest(k, inner, rest)) + c + tail
         == [Opens(k)] + Spell(inner) + [Closes(k)] + (Spell(rest) + c + tail)
  {
  }

  /** A word that takes `stack` to nothing is a balanced word, then a closer
      of the innermost container, then a word for the rest. */
  lemma {:induction false} MatchedIsSpelled(b: seq<Bracket>, stack: seq<Kind>)
    returns (w: Word, tail: seq<Bracket>)
    requires Match(b, stack) == Some([])
    ensures stack == [] ==> Spell(w) == b && tail == []
    ensures stack != [] ==>
              var n := |stack| - 1;
              b == Spell(w) + [Closes(stack[n])] + tail && Match(tail, stack[..n]) == Some([])
    decreases |b|
  {
    if b == [] {
      return Empty, [];
    }
    match b[0]
    case Opens(k) =>
      var inner, after := MatchedIsSpelled(b[1..], stack + [k]);
      assert (stack + [k])[..|stack|] == stack;
      assert b == [Opens(k)] + b[1..] == [Opens(k)] + Spell(inner) + [Closes(k)] + after;
      var rest, t := MatchedIsSpelled(after, stack);
      w, tail := Nest(k, inner, rest), t;
      if stack != [] {
        SpellNested(k, inner, rest, [Closes(stack[|stack| - 1])], tail);
      }
    case Closes(k) =>
      w, tail := Empty, b[1..];
      assert b == [Closes(k)] + b[1..];
  }

  lemma BalancedIsMatched(b: seq<Bracket>)
    ensures Balanced(b) <==> Match(b, []) == Some([])
  {
    if Match(b, []) == Some([]) {
      var w, _ := MatchedIsSpelled(b, []);
    }
    if Balanced(b) {
      var w :| Spell(w) == b;
      SpelledWordMatches(w, []);
    }
  }

  // ---------------------------------------------------------------------
  // Scanner and matcher
  // ---------------------------------------------------------------------

  lemma BracketStep(st: Scan, c: char)
    ensures CloserFits(st, c) <==> Match(BracketOf(st, c), Kinds(st.frames)).Some?
    ensures CloserFits(st, c) ==> Match(BracketOf(st, c), Kinds(st.frames)) == Some(Kinds(Next(st, c).frames))
  {
    var stack := Kinds(st.frames);
    if BracketOf(st, c) != [] {
      match BracketOf(st, c)[0]
      case Opens(k) =>
        assert Match([Opens(k)], stack) == Match([], stack + [k]);
        assert Kinds(Next(st, c).frames) == stack + [k];
      case Closes(k) =>
        if stack != [] && stack[|stack| - 1] == k {
          assert Match([Closes(k)], stack) == Match([], stack[..|stack| - 1]);
          assert Kinds(Next(st, c).frames) == stack[..|stack| - 1];
        }
    } else {
      assert Kinds(Next(st, c).frames) == stack;
    }
  }

  lemma WellClosedSnoc(s: string, n: nat)
    requires |s| == n + 1
    ensures WellClosed(s) <==> WellClosed(s[..n]) && CloserFits(Run(s[..n]), s[n])
  {
    hide Run, CloserFits;
    forall k | 0 <= k < n
      ensures s[..n][..k] == s[..k] && s[..n][k] == s[k]
    {
    }
    if WellClosed(s) {
      forall k | 0 <= k < n
        ensures CloserFits(Run(s[..n][..k]), s[..n][k])
      {
        assert CloserFits(Run(s[..k]), s[k]);
      }
      assert CloserFits(Run(s[..n]), s[n]);
    }
    if WellClosed(s[..n]) && CloserFits(Run(s[..n]), s[n]) {
      forall k | 0 <= k < |s|
        ensures CloserFits(Run(s[..k]), s[k])
      {
        if k < n {
          assert CloserFits(Run(s[..n][..k]), s[..n][k]);
        }
      }
    }
  }

  lemma {:induction false} WellClosedIsMatched(s: string)
    ensures WellClosed(s) <==> Match(Brackets(s), []).Some?
    ensures WellClosed(s) ==> Match(Brackets(s), []) == Some(Kinds(Run(s).frames))
  {
    if s == [] {
      assert Kinds(START.frames) == [];
    } else {
      var n := |s| - 1;
      var before := s[..n];
      assert Brackets(s) == Brackets(before) + BracketOf(Run(before), s[n]);
      assert Run(s) == Next(Run(before), s[n]);
      hide Run, Brackets, WellClosed, Next, CloserFits, Match, BracketOf;
      WellClosedIsMatched(before);
      WellClosedSnoc(s, n);
      BracketStep(Run(before), s[n]);
      MatchAppend(Brackets(before), BracketOf(Run(before), s[n]), []);
    }
  }

  function Closers(kinds: seq<Kind>): seq<Bracket>
    decreases |kinds|
  {
    if kinds == [] then [] else [Closes(kinds[|kinds| - 1])] + Closers(kinds[..|kinds| - 1])
  }

  lemma {:induction false} ClosersEmptyTheStack(kinds: seq<Kind>)
    ensures Match(Closers(kinds), kinds) == Some([])
    decreases |kinds|
  {
    if kinds != [] {
      var rest := Closers(kinds[..|kinds| - 1]);
      assert ([Closes(kinds[|kinds| - 1])] + rest)[1..] == rest;
      ClosersEmptyTheStack(kinds[..|kinds| - 1]);
    }
  }

  lemma BracketsSnoc(s: string, c: char)
    ensures Brackets(s + [c]) == Brackets(s) + BracketOf(Run(s), c)
  {
    assert (s + [c])[..|s|] == s;
  }

  lemma {:induction false} InertTailHasNoBrackets(a: string, t: string)
    requires Calm(Run(a)) && forall i :: 0 <= i < |t| ==> IsInert(t[i])
    ensures Brackets(a + t) == Brackets(a)
    decreases t
  {
    if t == [] {
      assert a + t == a;
    } else {
      assert a + t == (a + [t[0]]) + t[1..];
      RunSnoc(a, t[0]);
      InertNext(Run(a), t[0]);
      BracketsSnoc(a, t[0]);
      InertTailHasNoBrackets(a + [t[0]], t[1..]);
    }
  }

  lemma {:induction false} TrimsKeepBrackets(s: string)
    requires Calm(Run(s))
    ensures Brackets(TrimEnd(s)) == Brackets(s) == Brackets(TrimCommas(s))
  {
    if s != [] && (IsWhitespace(s[|s| - 1]) || s[|s| - 1] == ',') {
      RunBounds(s[..|s| - 1]);
      InertNext(Run(s[..|s| - 1]), s[|s| - 1]);
      TrimsKeepBrackets(s[..|s| - 1]);
    }
  }

  lemma FillKeepsBrackets(text: string, f: Frame)
    requires Calm(Run(text))
    ensures Brackets(Fill(text, f)) == Brackets(text)
  {
    hide Run, Brackets;
    match f.due
    case Colon => InertTailHasNoBrackets(text, ": null");
    case ValueDue =>
      TrimsKeepBrackets(text);
      TrimsKeepStructure(text);
      TrimsKeepBrackets(TrimEnd(text));
      InertTailHasNoBrackets(text, "null");
    case _ =>
  }

  /** A closer read outside strings pops the innermost container. */
  lemma PopCloser(st: Scan, frames: seq<Frame>)
    requires Calm(st) && frames != [] && Kinds(st.frames) == Kinds(frames)
    ensures var n := |frames| - 1;
            var c := Closer(frames[n].kind);
            && Calm(Next(st, c)) && Kinds(Next(st, c).frames) == Kinds(frames[..n]) == Kinds(frames)[..n]
            && BracketOf(st, c) == [Closes(frames[n].kind)]
            && Kinds(frames)[n] == frames[n].kind
  {
    var n := |frames| - 1;
    assert |st.frames| == |Kinds(st.frames)| == n + 1;
    assert Kinds(WithLast(st.frames[..n], AfterValue)) == Kinds(st.frames[..n]) == Kinds(st.frames)[..n];
    assert Kinds(frames[..n]) == Kinds(frames)[..n];
  }

  lemma {:induction false} CloseAllBrackets(text: string, frames: seq<Frame>)
    requires Calm(Run(text)) && Kinds(Run(text).frames) == Kinds(frames)
    ensures Brackets(CloseAll(text, frames)) == Brackets(text) + Closers(Kinds(frames))
    decreases |frames|
  {
    hide Run, Next, Fill, BracketOf, Brackets;
    if frames == [] {
      assert Brackets(text) + [] == Brackets(text);
    } else {
      hide Kinds;
      var n := |frames| - 1;
      var f := frames[n];
      var filled := Fill(text, f);
      var closed := filled + [Closer(f.kind)];
      FillKeepsStructure(text, f);
      FillKeepsBrackets(text, f);
      RunSnoc(filled, Closer(f.kind));
      BracketsSnoc(filled, Closer(f.kind));
      PopCloser(Run(filled), frames);
      CloseAllBrackets(closed, frames[..n]);
      assert Closers(Kinds(frames)) == [Closes(f.kind)] + Closers(Kinds(frames[..n]));
      assert Brackets(closed) + Closers(Kinds(frames[..n]))
          == Brackets(text) + ([Closes(f.kind)] + Closers(Kinds(frames[..n])));
    }
  }

  /** Finishing the cut token adds and removes no bracket. */
  lemma {:induction false} LiteralHasNoBrackets(s: string, k: nat)
    requires Run(s).literal.Some? && Run(s).literal.value <= k <= |s|
    ensures Brackets(s[..k]) == Brackets(s)
    decreases |s|
  {
    var n := |s| - 1;
    RunBounds(s);
    if k == |s| {
      assert s[..k] == s;
    } else {
      LiteralSpan(s, n);
      assert Brackets(s[..n]) == Brackets(s) by {
        assert Run(s).literal.Some? ==> BracketOf(Run(s[..n]), s[n]) == [];
      }
      if Run(s[..n]).literal.Some? {
        assert s[..n][..k] == s[..k];
        LiteralHasNoBrackets(s[..n], k);
      } else {
        RunBounds(s[..n]);
        assert k == n;
      }
    }
  }

  lemma FinishStringBrackets(input: string)
    requires Run(input).inString
    ensures Brackets(Finished(input).0) == Brackets(input)
  {
    RunBounds(input);
    var body := if Run(input).escaping then input[..|input| - 1] else input;
    RunBounds(body);
    BracketsSnoc(body, '"');
  }

  lemma FinishTokenBrackets(input: string)
    ensures Brackets(Finished(input).0) == Brackets(input)
  {
    RunBounds(input);
    var st := Run(input);
    if st.inString {
      FinishStringBrackets(input);
    } else if st.literal.Some? {
      hide Run, Brackets;
      var ls := st.literal.value;
      var k := TrimNumberTailIsPrefix(input[ls..]);
      assert input[..ls] + input[ls..][..k] == input[..ls + k];
      LiteralHasNoBrackets(input, ls + k);
    }
  }

  /** The completed text is a balanced bracket word exactly when no closer of
      the input, outside strings, is surplus or mismatched. */
  lemma CompletedTextIsBalanced(input: string)
    ensures Balanced(Brackets(Complete(input))) <==> WellClosed(input)
  {
    hide Run;
    var text, frames := FinishTokenState(input);
    FinishTokenBrackets(input);
    CloseAllBrackets(text, frames);
    BalancedIsMatched(Brackets(Complete(input)));
    WellClosedIsMatched(input);
    MatchAppend(Brackets(input), Closers(Kinds(frames)), []);
    ClosersEmptyTheStack(Kinds(frames));
  }
}
