/** An unfinished container that is the value of an object member: the scanner
    never marks the member's value as seen, so closing the object appends a
    stray `null` and nothing is previewed. */
module NestedCuts {
  import opened JsonText
  import opened JsonRepair
  import opened JsonGrammar
  import opened PartialJson
  import opened StreamingParse

  predicate IsCloser(c: char) {
    c == '}' || c == ']'
  }

  /** `s` ends in a closer, then `n` characters that start with `n` (of
      `null`) and hold no quotation mark. */
  predicate Stray(s: string, n: nat) {
    && 0 < n < |s|
    && IsCloser(s[|s| - n - 1]) && s[|s| - n] == 'n'
    && forall i :: |s| - n <= i < |s| ==> s[i] != '"'
  }

  predicate SuffixOf(r: string, s: string) {
    |r| <= |s| && r == s[|s| - |r|..]
  }

  lemma Suffix(s: string, r: string, n: nat)
    requires Stray(s, n) && SuffixOf(r, s) && n < |r|
    ensures Stray(r, n)
  {
    var d := |s| - |r|;
    assert forall i :: 0 <= i < |r| ==> r[i] == s[d + i];
  }

  lemma SuffixTwice(r: string, q: string, s: string)
    requires SuffixOf(r, q) && SuffixOf(q, s)
    ensures SuffixOf(r, s)
  {
  }

  /** Dropping characters that are no closers stays before the stray text. */
  lemma DropKeepsStray(s: string, k: nat, n: nat)
    requires Stray(s, n) && k <= |s| && forall i :: 0 <= i < k ==> !IsCloser(s[i])
    ensures Stray(s[k..], n) && SuffixOf(s[k..], s)
    ensures n < |s| - k
  {
    assert |s| - n - 1 >= k;
    Suffix(s, s[k..], n);
  }

  // ---------------------------------------------------------------------
  // The strict grammar never reads past the stray text
  // ---------------------------------------------------------------------

  lemma {:induction false} SkipSpaceStops(s: string, n: nat)
    requires Stray(s, n)
    ensures Stray(SkipSpace(s), n) && SuffixOf(SkipSpace(s), s) && SkipSpace(s) != []
  {
    if IsJsonSpace(s[0]) {
      DropKeepsStray(s, 1, n);
      SkipSpaceStops(s[1..], n);
    }
  }

  lemma {:induction false} NoQuoteNoString(s: string)
    requires forall i :: 0 <= i < |s| ==> s[i] != '"'
    ensures ReadString(s).Fail?
  {
    if s != [] {
      if s[0] == '\\' && EscapeLength(s) > 0 {
        NoQuoteNoString(s[EscapeLength(s)..]);
      }
      NoQuoteNoString(s[1..]);
    }
  }

  lemma EscapeHasNoCloser(s: string)
    requires s != [] && s[0] == '\\'
    ensures EscapeLength(s) <= |s| && forall i :: 0 <= i < EscapeLength(s) ==> !IsCloser(s[i])
  {
  }

  /** What one turn of the string reader consumes. */
  function StringStep(s: string): nat
    requires s != []
  {
    if s[0] == '\\' then EscapeLength(s) else 1
  }

  lemma ReadStringTurn(s: string)
    requires ReadString(s).Ok?
    ensures s != [] && 0 < StringStep(s) <= |s|
    ensures var k := StringStep(s);
            if s[0] == '"' then ReadString(s).rest == s[k..]
            else ReadString(s[k..]).Ok? && ReadString(s).rest == ReadString(s[k..]).rest
  {
  }

  lemma StringStepStops(s: string, n: nat)
    requires Stray(s, n) && ReadString(s).Ok?
    ensures 0 < StringStep(s) <= |s| && Stray(s[StringStep(s)..], n) && SuffixOf(s[StringStep(s)..], s)
  {
    ReadStringTurn(s);
    if s[0] == '\\' {
      EscapeHasNoCloser(s);
      DropKeepsStray(s, EscapeLength(s), n);
    } else if |s| == n + 1 {
      assert forall i :: 0 <= i < n ==> s[1..][i] == s[1 + i];
      NoQuoteNoString(s[1..]);
    } else {
      Suffix(s, s[1..], n);
    }
  }

  lemma {:induction false} ReadStringStops(s: string, n: nat)
    requires Stray(s, n) && ReadString(s).Ok?
    ensures var r := ReadString(s).rest; Stray(r, n) && SuffixOf(r, s)
    decreases |s|
  {
    hide Stray, ReadString, SuffixOf, StringStep;
    ReadStringTurn(s);
    StringStepStops(s, n);
    if s[0] != '"' {
      var t := s[StringStep(s)..];
      ReadStringStops(t, n);
      SuffixTwice(ReadString(t).rest, t, s);
    }
  }

  lemma ReadKeyStops(s: string, n: nat)
    requires Stray(s, n) && ReadKey(s).Ok?
    ensures var r := ReadKey(s).rest; Stray(r, n) && SuffixOf(r, s)
  {
    hide ReadString, SkipSpace, Stray;
    SkipSpaceStops(s, n);
    var t := SkipSpace(s);
    DropKeepsStray(t, 1, n);
    ReadStringStops(t[1..], n);
    var k := ReadString(t[1..]);
    SkipSpaceStops(k.rest, n);
    DropKeepsStray(SkipSpace(k.rest), 1, n);
  }

  /** The reader stopped at the stray text or before it. */
  predicate Stops(r: string, s: string, n: nat) {
    n <= |r| && SuffixOf(r, s)
  }

  lemma StepOver(t: string, s: string, n: nat)
    requires Stray(t, n) && SuffixOf(t, s)
    ensures t != [] && Stops(t[1..], s, n)
  {
  }

  lemma StrayLength(s: string, n: nat)
    requires Stray(s, n)
    ensures 0 < n < |s|
  {
  }

  lemma ReadLeafStops(t: string, n: nat)
    requires Stray(t, n) && t != [] && SkipSpace(t) == t && t[0] != '{' && t[0] != '[' && ReadValue(t).Ok?
    ensures Stops(ReadValue(t).rest, t, n)
  {
    hide ReadString, NumberLength, Stray, SuffixOf, ReadMembers, ReadItems;
    if t[0] == '"' {
      DropKeepsStray(t, 1, n);
      ReadStringStops(t[1..], n);
      SuffixTwice(ReadString(t[1..]).rest, t[1..], t);
      StrayLength(ReadString(t[1..]).rest, n);
    } else if "true" <= t || "null" <= t {
      assert forall i :: 0 <= i < 4 ==> t[i] == (if "true" <= t then "true" else "null")[i];
      DropKeepsStray(t, 4, n);
    } else if "false" <= t {
      assert forall i :: 0 <= i < 5 ==> t[i] == "false"[i];
      DropKeepsStray(t, 5, n);
    } else {
      DropKeepsStray(t, NumberLength(t), n);
    }
  }

  lemma StopsTwice(r: string, q: string, s: string, n: nat)
    requires Stops(r, q, n) && SuffixOf(q, s)
    ensures Stops(r, s, n)
  {
  }

  lemma {:induction false} ReadValueStops(s: string, n: nat)
    requires Stray(s, n) && ReadValue(s).Ok?
    ensures Stops(ReadValue(s).rest, s, n)
    decreases |s|, 1
  {
    hide ReadValue, Stray, SkipSpace, SuffixOf, Stops;
    SkipSpaceStops(s, n);
    var t := SkipSpace(s);
    SkipSpaceIsIdempotent(s);
    ValueAfterSpace(s);
    if t[0] == '{' || t[0] == '[' {
      ReadContainerStops(t, n);
    } else {
      ReadLeafStops(t, n);
    }
    StopsTwice(ReadValue(t).rest, t, s, n);
  }

  lemma {:induction false} ReadContainerStops(t: string, n: nat)
    requires Stray(t, n) && t != [] && SkipSpace(t) == t && (t[0] == '{' || t[0] == '[') && ReadValue(t).Ok?
    ensures Stops(ReadValue(t).rest, t, n)
    decreases |t|, 0
  {
    hide ReadValue, Stray, SkipSpace, SuffixOf, Stops, ReadMembers, ReadItems;
    ContainerTurn(t);
    DropKeepsStray(t, 1, n);
    SkipSpaceStops(t[1..], n);
    var u := SkipSpace(t[1..]);
    SuffixTwice(u, t[1..], t);
    StepOver(u, t, n);
    if t[0] == '{' && u[0] != '}' {
      ReadMembersStops(t[1..], n);
      StopsTwice(ReadMembers(t[1..]).rest, t[1..], t, n);
    } else if t[0] == '[' && u[0] != ']' {
      ReadItemsStops(t[1..], n);
      StopsTwice(ReadItems(t[1..]).rest, t[1..], t, n);
    }
  }

  lemma ValueAfterSpace(s: string)
    ensures ReadValue(s) == ReadValue(SkipSpace(s))
  {
    SkipSpaceIsIdempotent(s);
  }

  lemma ContainerTurn(t: string)
    requires t != [] && SkipSpace(t) == t && (t[0] == '{' || t[0] == '[') && ReadValue(t).Ok?
    ensures var u := SkipSpace(t[1..]);
            ReadValue(t).rest ==
            if u != [] && u[0] == (if t[0] == '{' then '}' else ']') then u[1..]
            else if t[0] == '{' then ReadMembers(t[1..]).rest else ReadItems(t[1..]).rest
    ensures var u := SkipSpace(t[1..]);
            u != [] && u[0] != (if t[0] == '{' then '}' else ']') ==>
              if t[0] == '{' then ReadMembers(t[1..]).Ok? else ReadItems(t[1..]).Ok?
  {
  }

  lemma {:induction false} SkipSpaceIsIdempotent(s: string)
    ensures SkipSpace(SkipSpace(s)) == SkipSpace(s) && |SkipSpace(s)| <= |s|
  {
    if s != [] && IsJsonSpace(s[0]) {
      SkipSpaceIsIdempotent(s[1..]);
    }
  }

  /** At the stray text itself there is neither a comma nor a closer. */
  lemma SeparatorStops(s: string, r: string, n: nat)
    requires Stray(s, n) && Stops(r, s, n)
    ensures SkipSpace(r) != []
    ensures var e := SkipSpace(r);
            if |r| == n then e[0] == 'n' else Stray(e, n) && SuffixOf(e, s)
  {
    if |r| == n {
      assert r[0] == s[|s| - n];
    } else {
      Suffix(s, r, n);
      SkipSpaceStops(r, n);
    }
  }

  lemma {:induction false} ReadMembersStops(s: string, n: nat)
    requires Stray(s, n) && ReadMembers(s).Ok?
    ensures Stops(ReadMembers(s).rest, s, n)
    decreases |s|, 2
  {
    hide ReadKey, ReadValue, SkipSpace, Stray;
    ReadKeyStops(s, n);
    var k := ReadKey(s).rest;
    ReadValueStops(k, n);
    var v := ReadValue(k).rest;
    SeparatorStops(k, v, n);
    var e := SkipSpace(v);
    if |v| != n {
      StepOver(e, s, n);
      if e[0] == ',' {
        DropKeepsStray(e, 1, n);
        ReadMembersStops(e[1..], n);
      }
    }
  }

  lemma {:induction false} ReadItemsStops(s: string, n: nat)
    requires Stray(s, n) && ReadItems(s).Ok?
    ensures Stops(ReadItems(s).rest, s, n)
    decreases |s|, 2
  {
    hide ReadValue, SkipSpace, Stray;
    ReadValueStops(s, n);
    var v := ReadValue(s).rest;
    SeparatorStops(s, v, n);
    var e := SkipSpace(v);
    if |v| != n {
      StepOver(e, s, n);
      if e[0] == ',' {
        DropKeepsStray(e, 1, n);
        ReadItemsStops(e[1..], n);
      }
    }
  }

  /** A closer directly followed by `null` is rejected. */
  lemma StrayIsRejected(s: string, n: nat)
    requires Stray(s, n)
    ensures Parse(s).None?
  {
    hide ReadValue;
    if ReadValue(s).Ok? {
      ReadValueStops(s, n);
      SeparatorStops(s, ReadValue(s).rest, n);
    }
  }

  // ---------------------------------------------------------------------
  // Where the completion leaves stray text
  // ---------------------------------------------------------------------

  /** An open object whose member value is itself an open container. */
  predicate Buried(frames: seq<Frame>) {
    exists i :: 0 <= i < |frames| - 1 && frames[i] == Frame(ObjectKind, ValueDue)
  }

  predicate EndsClosed(s: string) {
    s != [] && IsCloser(s[|s| - 1])
  }

  lemma FillAfterCloser(text: string, f: Frame)
    requires EndsClosed(text)
    ensures text <= Fill(text, f)
    ensures forall i :: |text| <= i < |Fill(text, f)| ==> Fill(text, f)[i] != '"'
    ensures f == Frame(ObjectKind, ValueDue) ==> Fill(text, f) == text + "null"
  {
    assert TrimEnd(text) == text;
  }

  lemma {:induction false} CloseAllKeepsStray(text: string, frames: seq<Frame>, n: nat) returns (m: nat)
    requires Stray(text, n) && EndsClosed(text)
    ensures Stray(CloseAll(text, frames), m)
    decreases |frames|
  {
    if frames == [] {
      m := n;
    } else {
      var f := frames[|frames| - 1];
      FillAfterCloser(text, f);
      var next := Fill(text, f) + [Closer(f.kind)];
      m := n + |next| - |text|;
      assert next[..|text|] == text;
      assert Stray(next, m);
      m := CloseAllKeepsStray(next, frames[..|frames| - 1], m);
    }
  }

  lemma {:induction false} CloseAllLeavesStray(text: string, frames: seq<Frame>) returns (m: nat)
    requires EndsClosed(text)
    requires exists i :: 0 <= i < |frames| && frames[i] == Frame(ObjectKind, ValueDue)
    ensures Stray(CloseAll(text, frames), m)
    decreases |frames|
  {
    var f := frames[|frames| - 1];
    FillAfterCloser(text, f);
    var next := Fill(text, f) + [Closer(f.kind)];
    if f == Frame(ObjectKind, ValueDue) {
      assert next == text + "null}" && Stray(next, 5);
      m := CloseAllKeepsStray(next, frames[..|frames| - 1], 5);
    } else {
      m := CloseAllLeavesStray(next, frames[..|frames| - 1]);
    }
  }

  lemma BuriedIsRejected(s: string)
    requires Buried(Run(s).frames)
    ensures Parse(Complete(s)).None?
  {
    hide Parse, Run;
    RunBounds(s);
    var (text, frames) := Finished(s);
    var n := |frames| - 1;
    assert frames[..n] == Run(s).frames[..n];
    var f := frames[n];
    var m := CloseAllLeavesStray(Fill(text, f) + [Closer(f.kind)], frames[..n]);
    StrayIsRejected(Complete(s), m);
  }

  /** For every input: while a container is open as the value of an object
      member, the streaming parse is the empty object, whatever has already
      arrived. */
  lemma NestedCutFallsBack(s: string)
    requires Buried(Run(s).frames)
    ensures ParseStreaming(s) == EMPTY_OBJECT
  {
    hide Parse, Run, Complete;
    OpenTextIsRejected(s);
    RepairKeepsContainers(s);
    BuriedIsRejected(s);
    BuriedIsRejected(RepairJson(s));
  }
}
