/** `parse_streaming_json` and the agreement between the strict grammar, the
    repairer and the completing scanner. */
module StreamingParse {
  import opened JsonText
  import opened JsonRepair
  import opened JsonGrammar
  import opened PartialJson
  import opened PartialJsonShape

  function ParseWithRepair(s: string): Option<Json> {
    if Parse(s).Some? then Parse(s)
    else if RepairJson(s) == s then None
    else Parse(RepairJson(s))
  }

  const EMPTY_OBJECT := JObject([])

  /** Always a value: the text itself, its repair, its completion, or the
      completion of its repair; the empty object when none parses. */
  function ParseStreaming(s: string): Json {
    if forall i :: 0 <= i < |s| ==> IsWhitespace(s[i]) then EMPTY_OBJECT
    else if ParseWithRepair(s).Some? then ParseWithRepair(s).value
    else if Parse(Complete(s)).Some? then Parse(Complete(s)).value
    else if Parse(Complete(RepairJson(s))).Some? then Parse(Complete(RepairJson(s))).value
    else EMPTY_OBJECT
  }

  // ---------------------------------------------------------------------
  // The scanner over text the grammar reads
  // ---------------------------------------------------------------------

  function Advance(st: Scan, n: nat): Scan {
    st.(pos := st.pos + n)
  }

  lemma {:induction false} FeedSpace(st: Scan, s: string)
    requires Calm(st)
    ensures Feed(st, s) == Feed(Advance(st, |s| - |SkipSpace(s)|), SkipSpace(s))
    decreases s
  {
    if s != [] && IsJsonSpace(s[0]) {
      assert Next(st, s[0]) == Advance(st, 1);
      FeedSpace(Next(st, s[0]), s[1..]);
    }
  }

  lemma FeedEscape(st: Scan, s: string, n: nat)
    requires st.inString && !st.escaping && s != [] && s[0] == '\\' && EscapeLength(s) == n > 0
    ensures Feed(st, s) == Feed(Advance(st, n), s[n..])
  {
    var st1 := Next(st, s[0]);
    var st2 := Next(st1, s[1]);
    assert st2 == Advance(st, 2);
    assert Feed(st1, s[1..]) == Feed(st2, s[1..][1..]);
    assert s[1..][1..] == s[2..];
    if n == 6 {
      assert s[2..] == s[2..6] + s[6..];
      FeedAppend(st2, s[2..6], s[6..]);
      FeedPlain(st2, s[2..6]);
    }
  }

  lemma {:induction false} FeedPlain(st: Scan, t: string)
    requires st.inString && !st.escaping
    requires forall i :: 0 <= i < |t| ==> t[i] != '"' && t[i] != '\\'
    ensures Feed(st, t) == Advance(st, |t|)
    decreases t
  {
    if t != [] {
      assert Next(st, t[0]) == Advance(st, 1);
      FeedPlain(Next(st, t[0]), t[1..]);
    }
  }

  function AfterString(st: Scan, n: nat): Scan {
    Advance(st, n).(inString := false, frames := CloseString(st.frames))
  }

  lemma InStringNext(st: Scan, c: char)
    requires st.inString && !st.escaping
    ensures c == '"' ==> Next(st, c) == AfterString(st, 1)
    ensures c != '"' && c != '\\' ==> Next(st, c) == Advance(st, 1)
  {
  }

  lemma {:induction false} FeedString(st: Scan, s: string)
    requires st.inString && !st.escaping && ReadString(s).Ok?
    ensures Feed(st, s) == Feed(AfterString(st, |s| - |ReadString(s).rest|), ReadString(s).rest)
    decreases s
  {
    hide Next, CloseString, EscapeLength, EscapeUnit, Units;
    InStringNext(st, s[0]);
    if s[0] == '"' {
    } else if s[0] == '\\' {
      var n := EscapeLength(s);
      FeedEscape(st, s, n);
      FeedString(Advance(st, n), s[n..]);
    } else {
      FeedString(Next(st, s[0]), s[1..]);
    }
  }

  lemma {:induction false} FeedNumberTail(st: Scan, t: string)
    requires Calm(st) && st.literal.Some? && forall i :: 0 <= i < |t| ==> IsNumberChar(t[i])
    ensures Feed(st, t) == Advance(st, |t|)
    decreases t
  {
    if t != [] {
      assert Next(st, t[0]) == Advance(st, 1);
      FeedNumberTail(Next(st, t[0]), t[1..]);
    }
  }

  lemma NumberStart(st: Scan, c: char)
    requires Calm(st) && st.literal.None? && (IsDigit(c) || c == '-')
    ensures Next(st, c) == Advance(st, 1).(literal := Some(st.pos))
  {
  }

  lemma FeedNumber(st: Scan, s: string, n: nat)
    requires Calm(st) && st.literal.None? && NumberLength(s) == n > 0
    ensures Feed(st, s) == Feed(Advance(st, n).(literal := Some(st.pos)), s[n..])
  {
    hide NumberLength, Next;
    NumberStart(st, s[0]);
    var first := Next(st, s[0]);
    assert s[1..] == s[1..n] + s[n..];
    FeedAppend(first, s[1..n], s[n..]);
    FeedNumberTail(first, s[1..n]);
  }

  lemma FeedWord(st: Scan, s: string, w: string)
    requires Calm(st) && st.literal.None? && w <= s
    requires w == "true" || w == "false" || w == "null"
    ensures Feed(st, s) == Feed(Advance(st, |w|), s[|w|..])
  {
    assert s == w + s[|w|..];
    FeedAppend(st, w, s[|w|..]);
    FeedLetters(st, w);
  }

  lemma {:induction false} FeedLetters(st: Scan, w: string)
    requires Calm(st) && st.literal.None? && forall i :: 0 <= i < |w| ==> 'a' <= w[i] <= 'z'
    ensures Feed(st, w) == Advance(st, |w|)
    decreases w
  {
    if w != [] {
      assert Next(st, w[0]) == Advance(st, 1);
      FeedLetters(Next(st, w[0]), w[1..]);
    }
  }

  /** The scanner state after a value has been read from `st`: the same
      containers, outside any string. */
  ghost predicate ReadFrom(st: Scan, after: Scan) {
    Calm(after) && Kinds(after.frames) == Kinds(st.frames)
  }

  lemma OpenContainer(st: Scan, c: char)
    requires Calm(st) && (c == '{' || c == '[')
    ensures Calm(Next(st, c)) && Next(st, c).literal.None?
    ensures Kinds(Next(st, c).frames) == Kinds(st.frames) + [if c == '{' then ObjectKind else ArrayKind]
    ensures Next(st, c).frames != []
  {
  }

  lemma CloseContainer(st: Scan, c: char, outer: seq<Kind>, k: Kind)
    requires Calm(st) && (c == '}' || c == ']') && Kinds(st.frames) == outer + [k]
    ensures Calm(Next(st, c)) && Next(st, c).literal.None? && Kinds(Next(st, c).frames) == outer
  {
    var n := |st.frames| - 1;
    assert |Kinds(st.frames)| == n + 1;
    assert Kinds(WithLast(st.frames[..n], AfterValue)) == Kinds(st.frames[..n]) == Kinds(st.frames)[..n] == outer;
  }

  lemma Separator(st: Scan, c: char)
    requires Calm(st) && (c == ',' || c == ':')
    ensures Calm(Next(st, c)) && Next(st, c).literal.None? && Kinds(Next(st, c).frames) == Kinds(st.frames)
  {
  }

  lemma OpenQuote(st: Scan)
    requires Calm(st)
    ensures var q := Next(st, '"'); q.inString && !q.escaping && q.literal.None? && q.frames == st.frames
    ensures forall n: nat :: ReadFrom(st, AfterString(Next(st, '"'), n))
  {
    assert Kinds(CloseString(st.frames)) == Kinds(st.frames);
  }

  lemma FeedStep(st: Scan, s: string)
    requires s != []
    ensures Feed(st, s) == Feed(Next(st, s[0]), s[1..])
  {
  }

  lemma FeedStringToken(at: Scan, t: string) returns (after: Scan)
    requires Calm(at) && t != [] && t[0] == '"' && ReadString(t[1..]).Ok?
    ensures Feed(at, t) == Feed(after, ReadString(t[1..]).rest)
    ensures ReadFrom(at, after) && after.literal.None?
  {
    hide Next, Feed, CloseString, ReadString;
    OpenQuote(at);
    FeedStep(at, t);
    FeedString(Next(at, '"'), t[1..]);
    after := AfterString(Next(at, '"'), |t[1..]| - |ReadString(t[1..]).rest|);
  }

  lemma {:induction false} FeedValue(st: Scan, s: string) returns (after: Scan)
    requires Calm(st) && st.literal.None? && ReadValue(s).Ok?
    ensures Feed(st, s) == Feed(after, ReadValue(s).rest) && ReadFrom(st, after)
    ensures after.literal.Some? ==> ReadValue(s).value.JNumber?
    decreases |s|, 0
  {
    hide Next, Feed, NumberLength, ReadString;
    var t := SkipSpace(s);
    FeedSpace(st, s);
    var at := Advance(st, |s| - |t|);
    if t[0] == '"' {
      after := FeedStringToken(at, t);
    } else if t[0] == '{' || t[0] == '[' {
      after := FeedContainer(at, t);
    } else if "true" <= t || "false" <= t || "null" <= t {
      after := FeedWordValue(at, t);
    } else {
      var n := NumberLength(t);
      FeedNumber(at, t, n);
      after := Advance(at, n).(literal := Some(at.pos));
    }
  }

  lemma FeedWordValue(at: Scan, t: string) returns (after: Scan)
    requires Calm(at) && at.literal.None? && SkipSpace(t) == t
    requires "true" <= t || "false" <= t || "null" <= t
    ensures ReadValue(t).Ok? && !ReadValue(t).value.JNumber?
    ensures Feed(at, t) == Feed(after, ReadValue(t).rest) && ReadFrom(at, after) && after.literal.None?
  {
    hide Next, NumberLength, Feed;
    var w := if "true" <= t then "true" else if "false" <= t then "false" else "null";
    assert w <= t && t[0] == w[0];
    FeedWord(at, t, w);
    after := Advance(at, |w|);
  }

  lemma {:induction false} FeedContainer(at: Scan, t: string) returns (after: Scan)
    requires Calm(at) && at.literal.None? && t != [] && (t[0] == '{' || t[0] == '[')
    requires SkipSpace(t) == t && ReadValue(t).Ok?
    ensures Feed(at, t) == Feed(after, ReadValue(t).rest) && ReadFrom(at, after) && after.literal.None?
    decreases |t|, 0, 0
  {
    hide Next, CloseString, NumberLength;
    var close := if t[0] == '{' then '}' else ']';
    var kind := if t[0] == '{' then ObjectKind else ArrayKind;
    OpenContainer(at, t[0]);
    var inner := Next(at, t[0]);
    var u := SkipSpace(t[1..]);
    FeedSpace(inner, t[1..]);
    if u != [] && u[0] == close {
      var inside := Advance(inner, |t[1..]| - |u|);
      CloseContainer(inside, close, Kinds(at.frames), kind);
      after := Next(inside, close);
    } else if t[0] == '{' {
      after := FeedMembers(inner, t[1..], Kinds(at.frames));
    } else {
      after := FeedItems(inner, t[1..], Kinds(at.frames));
    }
  }

  lemma FeedKey(st: Scan, s: string) returns (after: Scan)
    requires Calm(st) && ReadKey(s).Ok?
    ensures Feed(st, s) == Feed(after, ReadKey(s).rest)
    ensures ReadFrom(st, after) && after.literal.None?
  {
    hide Next, Feed, SkipSpace, ReadString;
    var t := SkipSpace(s);
    FeedSpace(st, s);
    var keyed := FeedStringToken(Advance(st, |s| - |t|), t);
    var rest := ReadString(t[1..]).rest;
    var c := SkipSpace(rest);
    FeedSpace(keyed, rest);
    var atColon := Advance(keyed, |rest| - |c|);
    FeedStep(atColon, c);
    Separator(atColon, ':');
    after := Next(atColon, ':');
  }

  lemma {:induction false} FeedMembers(st: Scan, s: string, outer: seq<Kind>) returns (after: Scan)
    requires Calm(st) && st.literal.None? && Kinds(st.frames) == outer + [ObjectKind]
    requires ReadMembers(s).Ok?
    ensures Feed(st, s) == Feed(after, ReadMembers(s).rest)
    ensures Calm(after) && after.literal.None? && Kinds(after.frames) == outer
    decreases |s|, 1
  {
    hide Next, CloseString, NumberLength, ReadValue, ReadKey;
    var keyed := FeedKey(st, s);
    var valued := FeedValue(keyed, ReadKey(s).rest);
    var v := ReadValue(ReadKey(s).rest);
    var e := SkipSpace(v.rest);
    FeedSpace(valued, v.rest);
    var atEnd := Advance(valued, |v.rest| - |e|);
    if e[0] == '}' {
      CloseContainer(atEnd, '}', outer, ObjectKind);
      after := Next(atEnd, '}');
    } else {
      Separator(atEnd, ',');
      after := FeedMembers(Next(atEnd, ','), e[1..], outer);
    }
  }

  lemma {:induction false} FeedItems(st: Scan, s: string, outer: seq<Kind>) returns (after: Scan)
    requires Calm(st) && st.literal.None? && Kinds(st.frames) == outer + [ArrayKind]
    requires ReadItems(s).Ok?
    ensures Feed(st, s) == Feed(after, ReadItems(s).rest)
    ensures Calm(after) && after.literal.None? && Kinds(after.frames) == outer
    decreases |s|, 1
  {
    hide Next, CloseString, NumberLength, ReadValue;
    var valued := FeedValue(st, s);
    var v := ReadValue(s);
    var e := SkipSpace(v.rest);
    FeedSpace(valued, v.rest);
    var atEnd := Advance(valued, |v.rest| - |e|);
    if e[0] == ']' {
      CloseContainer(atEnd, ']', outer, ArrayKind);
      after := Next(atEnd, ']');
    } else {
      Separator(atEnd, ',');
      after := FeedItems(Next(atEnd, ','), e[1..], outer);
    }
  }

  // ---------------------------------------------------------------------
  // Accepted text needs no completion
  // ---------------------------------------------------------------------

  lemma {:induction false} SpaceTail(s: string)
    requires SkipSpace(s) == []
    ensures s != [] ==> IsJsonSpace(s[|s| - 1])
  {
    if |s| > 1 {
      SpaceTail(s[1..]);
    }
  }

  lemma {:induction false} SkipSpaceIsSuffix(s: string)
    ensures SkipSpace(s) == s[|s| - |SkipSpace(s)|..]
  {
    if s != [] && IsJsonSpace(s[0]) {
      SkipSpaceIsSuffix(s[1..]);
    }
  }

  lemma NumberRead(s: string)
    requires ReadValue(s).Ok? && ReadValue(s).value.JNumber?
    ensures var t := SkipSpace(s);
            NumberLength(t) > 0 && ReadValue(s).rest == t[NumberLength(t)..]
  {
    hide SkipSpace, ReadString, NumberLength, ReadMembers, ReadItems;
  }

  lemma BlankIsNoValue(s: string)
    requires var t := SkipSpace(s); t == [] || IsWhitespace(t[0])
    ensures ReadValue(s).Fail?
  {
    hide SkipSpace, ReadString, NumberLength, ReadMembers, ReadItems;
  }

  /** A number text ends with a digit or with whitespace. */
  lemma NumberTextEnd(s: string)
    requires Parse(s).Some? && Parse(s).value.JNumber?
    ensures s != [] && !IsTruncatedTail(s[|s| - 1])
  {
    hide ReadValue, NumberLength, SkipSpace;
    NumberRead(s);
    var t := SkipSpace(s);
    SkipSpaceIsSuffix(s);
    var n := NumberLength(t);
    SpaceTail(t[n..]);
    assert s[|s| - 1] == t[|t| - 1];
    if n < |t| {
      assert t[n..][|t| - n - 1] == t[|t| - 1];
    }
  }

  /** A text the strict grammar accepts leaves the scanner outside any string
      with no container open, and completing it changes nothing. */
  lemma AcceptedTextIsComplete(s: string)
    requires Parse(s).Some?
    ensures Calm(Run(s)) && Run(s).frames == []
    ensures Complete(s) == s
  {
    hide ReadValue, Next;
    RunIsFeed(s);
    var after := FeedValue(START, s);
    var rest := ReadValue(s).rest;
    FeedSpace(after, rest);
    assert Run(s) == Advance(after, |rest|);
    assert Kinds(after.frames) == Kinds([]) == [];
    RunBounds(s);
    if Run(s).literal.Some? {
      NumberTextEnd(s);
      var ls := Run(s).literal.value;
      assert s[ls..][|s[ls..]| - 1] == s[|s| - 1];
      assert TrimNumberTail(s[ls..]) == s[ls..];
    }
    SettledIsComplete(s);
  }

  // ---------------------------------------------------------------------
  // Repair keeps the container structure
  // ---------------------------------------------------------------------

  /** Two scanner states that agree on everything but position and literal. */
  predicate SameShape(a: Scan, b: Scan) {
    a.frames == b.frames && a.inString == b.inString
  }

  lemma SameNext(a: Scan, b: Scan, c: char)
    requires SameShape(a, b) && !a.escaping && !b.escaping
    ensures SameShape(Next(a, c), Next(b, c)) && Next(a, c).escaping == Next(b, c).escaping
    ensures Next(a, c).escaping <==> a.inString && c == '\\'
    ensures !Next(a, c).escaping ==> Next(a, c).inString == if c == '"' then !a.inString else a.inString
  {
  }

  lemma {:induction false} RepairKeepsShape(a: Scan, b: Scan, s: string)
    requires SameShape(a, b) && !a.escaping && !b.escaping
    ensures SameShape(Feed(a, s), Feed(b, Repair(s, a.inString)))
    decreases s
  {
    if s == [] {
    } else if a.inString && s[0] == '\\' {
      RepairKeepsShapeAtEscape(a, b, s);
    } else {
      SameNext(a, b, s[0]);
      var now := if s[0] == '"' then !a.inString else a.inString;
      var t := Repair(s[1..], now);
      if a.inString && IsControl(s[0]) {
        var e := EscapeControl(s[0]);
        ControlEscape(s[0]);
        EscapeIsLocal(e, t);
        FeedEscape(b, e + t, |e|);
        RepairKeepsShape(Next(a, s[0]), Advance(b, |e|), s[1..]);
      } else {
        assert ([s[0]] + t)[1..] == t;
        RepairKeepsShape(Next(a, s[0]), Next(b, s[0]), s[1..]);
      }
    }
  }

  lemma {:induction false} RepairKeepsShapeAtEscape(a: Scan, b: Scan, s: string)
    requires SameShape(a, b) && !a.escaping && !b.escaping
    requires a.inString && s != [] && s[0] == '\\'
    ensures SameShape(Feed(a, s), Feed(b, Repair(s, true)))
    decreases s, 0
  {
    var n := EscapeLength(s);
    if n > 0 {
      var t := Repair(s[n..], true);
      assert s == s[..n] + s[n..];
      EscapeIsLocal(s[..n], s[n..]);
      EscapeIsLocal(s[..n], t);
      FeedEscape(a, s, n);
      FeedEscape(b, s[..n] + t, n);
      RepairKeepsShape(Advance(a, n), Advance(b, n), s[n..]);
    } else {
      var t := Repair(s[1..], true);
      EscapeIsLocal("\\\\", t);
      FeedEscape(b, "\\\\" + t, 2);
      var a1 := Next(a, s[0]);
      if |s| > 1 {
        // the escaped character is read as itself by both
        assert s[1] != '"' && s[1] != '\\';
        var a2 := Next(a1, s[1]);
        assert a2 == Next(Advance(a, 1), s[1]);
        assert Feed(a1, s[1..]) == Feed(a2, s[1..][1..]) == Feed(Advance(a, 1), s[1..]);
        RepairKeepsShape(Advance(a, 1), Advance(b, 2), s[1..]);
      }
    }
  }

  /** Repair opens and closes the same strings and containers. */
  lemma RepairKeepsContainers(s: string)
    ensures SameShape(Run(s), Run(RepairJson(s)))
  {
    RunIsFeed(s);
    RunIsFeed(RepairJson(s));
    RepairKeepsShape(START, START, s);
  }

  /** Neither a text with a string or container still open, nor its repair, is
      accepted by the strict grammar. */
  lemma OpenTextIsRejected(s: string)
    requires Run(s).inString || Run(s).frames != []
    ensures ParseWithRepair(s).None?
  {
    RepairKeepsContainers(s);
    if Parse(s).Some? {
      AcceptedTextIsComplete(s);
    }
    if Parse(RepairJson(s)).Some? {
      AcceptedTextIsComplete(RepairJson(s));
    }
  }

  /** A complete document is read as itself, never altered by the tolerant
      stages. */
  lemma CompleteDocumentIsItself(s: string)
    requires Parse(s).Some?
    ensures ParseStreaming(s) == Parse(s).value
  {
    if forall i :: 0 <= i < |s| ==> IsWhitespace(s[i]) {
      SkipSpaceIsSuffix(s);
      hide ReadValue;
      var t := SkipSpace(s);
      if t != [] {
        assert t[0] == s[|s| - |t|];
      }
      BlankIsNoValue(s);
    }
  }
}
