/** `StreamingJsonAccumulator`: streamed argument text with a parsed preview
    that is refreshed eagerly while short and by 1/16 growth steps after. */
module Accumulator {
  import opened JsonText
  import opened JsonGrammar
  import opened StreamingParse

  const EAGER_PARSE_LENGTH: nat := 8 * 1024

  /** Length in UTF-16 code units. */
  function Utf16Length(s: string): nat {
    if s == [] then 0 else |Units(s[0])| + Utf16Length(s[1..])
  }

  lemma {:induction false} Utf16LengthAppend(a: string, b: string)
    ensures Utf16Length(a + b) == Utf16Length(a) + Utf16Length(b)
  {
    if a == [] {
      assert a + b == b;
    } else {
      assert (a + b)[1..] == a[1..] + b;
      Utf16LengthAppend(a[1..], b);
    }
  }

  lemma {:induction false} Utf16LengthIs(s: string)
    ensures Utf16Length(s) == |Utf16(s)|
  {
    if s != [] {
      Utf16LengthIs(s[1..]);
    }
  }

  lemma PrefixOfSameLength(a: string, b: string)
    requires a <= b && Utf16Length(a) == Utf16Length(b)
    ensures a == b
  {
    assert b == a + b[|a|..];
    Utf16LengthAppend(a, b[|a|..]);
  }

  /** The refresh is skipped: the text is long and grew by less than 1/16. */
  predicate Throttled(length: nat, covered: nat) {
    length > EAGER_PARSE_LENGTH && 16 * (length - covered) < covered
  }

  /** The value of an accumulator. */
  datatype State = State(text: string, parsedLength: nat) {
    function Appended(delta: string): (r: (State, Option<Json>)) {
      var t := text + delta;
      if Throttled(Utf16Length(t), parsedLength) then (State(t, parsedLength), None)
      else (State(t, Utf16Length(t)), Some(ParseStreaming(t)))
    }

    function Flushed(): (r: (State, Option<Json>)) {
      if parsedLength != Utf16Length(text) then (State(text, Utf16Length(text)), Some(ParseStreaming(text)))
      else (this, None)
    }
  }

  const EMPTY := State("", 0)

  /** The preview in the caller's hands is the parse of the part of the text
      counted by `parsedLength`. */
  ghost predicate Shows(acc: State, preview: Json) {
    exists seen :: seen <= acc.text && Utf16Length(seen) == acc.parsedLength && preview == ParseStreaming(seen)
  }

  function Updated(preview: Json, parsed: Option<Json>): Json {
    if parsed.Some? then parsed.value else preview
  }

  class StreamingJsonAccumulator {
    var text: string
    var lenUtf16: nat
    var parsedLength: nat

    ghost predicate Valid()
      reads this
    {
      lenUtf16 == Utf16Length(text) && parsedLength <= lenUtf16
    }

    ghost function View(): State
      reads this
    {
      State(text, parsedLength)
    }

    constructor ()
      ensures Valid() && View() == EMPTY
    {
      text, lenUtf16, parsedLength := "", 0, 0;
    }

    /** Appends a delta; a new parse, or `None` while throttled. */
    method Append(delta: string) returns (parsed: Option<Json>)
      requires Valid()
      modifies this
      ensures Valid()
      ensures (View(), parsed) == old(View()).Appended(delta)
    {
      Utf16LengthAppend(text, delta);
      text := text + delta;
      lenUtf16 := lenUtf16 + Utf16Length(delta);
      if lenUtf16 > EAGER_PARSE_LENGTH && 16 * (lenUtf16 - parsedLength) < parsedLength {
        return None;
      }
      var value := ParseNow();
      return Some(value);
    }

    /** Parses text not covered by the last returned parse. */
    method Flush() returns (parsed: Option<Json>)
      requires Valid()
      modifies this
      ensures Valid()
      ensures (View(), parsed) == old(View()).Flushed()
    {
      if parsedLength != lenUtf16 {
        var value := ParseNow();
        return Some(value);
      }
      return None;
    }

    method ParseNow() returns (value: Json)
      requires Valid()
      modifies this`parsedLength
      ensures Valid() && parsedLength == lenUtf16 && value == ParseStreaming(text)
    {
      parsedLength := lenUtf16;
      value := ParseStreaming(text);
    }
  }

  // ---------------------------------------------------------------------
  // The preview against the plain "reparse everything" version
  // ---------------------------------------------------------------------

  lemma EmptyShowsEmptyObject()
    ensures Shows(EMPTY, EMPTY_OBJECT)
  {
    assert "" <= EMPTY.text && Utf16Length("") == 0 && EMPTY_OBJECT == ParseStreaming("");
  }

  /** After every append the preview is the parse of everything received, or
      of a prefix that lags by less than 1/16 of what was parsed; it is never
      behind while the text is short. */
  lemma AppendKeepsPreview(acc: State, preview: Json, delta: string)
    requires Shows(acc, preview)
    ensures var (next, parsed) := acc.Appended(delta);
            var now := Updated(preview, parsed);
            var length := |Utf16(next.text)|;
            && next.text == acc.text + delta
            && Shows(next, now)
            && (parsed.None? <==> length > 8192 && 16 * (length - acc.parsedLength) < acc.parsedLength)
            && (parsed.Some? ==> now == ParseStreaming(next.text) && next.parsedLength == length)
            && (parsed.None? ==> next.parsedLength == acc.parsedLength)
  {
    Utf16LengthIs(acc.text + delta);
    var (next, parsed) := acc.Appended(delta);
    if parsed.None? {
      var seen :| seen <= acc.text && Utf16Length(seen) == acc.parsedLength && preview == ParseStreaming(seen);
      assert seen <= next.text;
    } else {
      assert next.text <= next.text && Utf16Length(next.text) == next.parsedLength;
    }
  }

  /** After a flush the preview is the parse of everything received, whether
      or not the flush had to parse. */
  lemma FlushMakesCurrent(acc: State, preview: Json)
    requires Shows(acc, preview)
    ensures var (next, parsed) := acc.Flushed();
            next.text == acc.text && Shows(next, Updated(preview, parsed))
            && Updated(preview, parsed) == ParseStreaming(acc.text)
  {
    var (next, parsed) := acc.Flushed();
    var seen :| seen <= acc.text && Utf16Length(seen) == acc.parsedLength && preview == ParseStreaming(seen);
    if parsed.None? {
      PrefixOfSameLength(seen, acc.text);
    }
    assert next.text <= next.text && Utf16Length(next.text) == next.parsedLength;
  }

  // ---------------------------------------------------------------------
  // The cost of a whole stream
  // ---------------------------------------------------------------------

  /** Lengths of the parses beyond the eager range, over a sequence of
      appends. */
  function LongParses(acc: State, deltas: seq<string>): seq<nat>
    decreases deltas
  {
    if deltas == [] then []
    else
      var (next, parsed) := acc.Appended(deltas[0]);
      (if parsed.Some? && next.parsedLength > 8192 then [next.parsedLength] else [])
      + LongParses(next, deltas[1..])
  }

  function After(acc: State, deltas: seq<string>): State
    decreases deltas
  {
    if deltas == [] then acc else After(acc.Appended(deltas[0]).0, deltas[1..])
  }

  function Sum(xs: seq<nat>): nat {
    if xs == [] then 0 else xs[0] + Sum(xs[1..])
  }

  /** Each parse beyond the eager range is at least 17/16 of the one before. */
  predicate Steps(last: nat, xs: seq<nat>)
    decreases xs
  {
    xs == [] || (xs[0] > EAGER_PARSE_LENGTH && 17 * last <= 16 * xs[0] && Steps(xs[0], xs[1..]))
  }

  lemma {:induction false} LongParsesStep(acc: State, deltas: seq<string>)
    requires acc.parsedLength <= Utf16Length(acc.text)
    ensures Steps(if acc.parsedLength > EAGER_PARSE_LENGTH then acc.parsedLength else 0, LongParses(acc, deltas))
    ensures forall x :: x in LongParses(acc, deltas) ==> x <= Utf16Length(After(acc, deltas).text)
    ensures Utf16Length(acc.text) <= Utf16Length(After(acc, deltas).text)
    decreases deltas
  {
    if deltas != [] {
      var (next, parsed) := acc.Appended(deltas[0]);
      Utf16LengthAppend(acc.text, deltas[0]);
      LongParsesStep(next, deltas[1..]);
      if parsed.Some? && next.parsedLength > EAGER_PARSE_LENGTH {
        var later := LongParses(next, deltas[1..]);
        assert ([next.parsedLength] + later)[1..] == later;
      } else {
        assert [] + LongParses(next, deltas[1..]) == LongParses(next, deltas[1..]);
      }
    }
  }

  lemma {:induction false} StepsSum(last: nat, xs: seq<nat>, bound: nat)
    requires Steps(last, xs) && (forall x :: x in xs ==> x <= bound) && last <= bound
    ensures Sum(xs) + 17 * last <= 17 * bound
    decreases xs
  {
    if xs != [] {
      assert xs[0] in xs;
      assert forall x :: x in xs[1..] ==> x in xs;
      StepsSum(xs[0], xs[1..], bound);
    }
  }

  function Pow(b: nat, e: nat): nat {
    if e == 0 then 1 else b * Pow(b, e - 1)
  }

  lemma {:induction false} StepsPower(last: nat, xs: seq<nat>, bound: nat)
    requires Steps(last, xs) && (forall x :: x in xs ==> x <= bound) && last <= bound
    ensures last * Pow(17, |xs|) <= bound * Pow(16, |xs|)
    decreases xs
  {
    if xs != [] {
      var k := |xs| - 1;
      var p, q := Pow(17, k), Pow(16, k);
      assert xs[0] in xs;
      assert forall x :: x in xs[1..] ==> x in xs;
      StepsPower(xs[0], xs[1..], bound);
      calc {
        last * Pow(17, |xs|);
        last * (17 * p);
        == { Regroup(last, 17, p); }
        (17 * last) * p;
        <= { Scale(17 * last, 16 * xs[0], p); }
        (16 * xs[0]) * p;
        == { Regroup(xs[0], 16, p); Regroup(16, xs[0], p); }
        16 * (xs[0] * p);
        <=
        16 * (bound * q);
        == { Regroup(bound, 16, q); Regroup(16, bound, q); }
        bound * (16 * q);
        bound * Pow(16, |xs|);
      }
    }
  }

  lemma Regroup(a: nat, b: nat, c: nat)
    ensures a * (b * c) == (b * a) * c
  {
  }

  lemma Scale(a: nat, b: nat, c: nat)
    requires a <= b
    ensures a * c <= b * c
  {
  }

  /** Over any sequence of appends to a new accumulator, the text parsed
      beyond the eager range adds up to at most 17 times the final length. */
  lemma TotalParsedIsLinear(deltas: seq<string>)
    ensures Sum(LongParses(EMPTY, deltas)) <= 17 * |Utf16(After(EMPTY, deltas).text)|
  {
    Utf16LengthIs(After(EMPTY, deltas).text);
    LongParsesStep(EMPTY, deltas);
    StepsSum(0, LongParses(EMPTY, deltas), Utf16Length(After(EMPTY, deltas).text));
  }

  /** And `k` such parses need a final length above 8192 * (17/16)^(k-1). */
  lemma ParsesAreLogarithmic(deltas: seq<string>)
    requires LongParses(EMPTY, deltas) != []
    ensures var k := |LongParses(EMPTY, deltas)|;
            8192 * Pow(17, k - 1) < |Utf16(After(EMPTY, deltas).text)| * Pow(16, k - 1)
  {
    var xs := LongParses(EMPTY, deltas);
    var bound := Utf16Length(After(EMPTY, deltas).text);
    Utf16LengthIs(After(EMPTY, deltas).text);
    LongParsesStep(EMPTY, deltas);
    assert xs[0] in xs;
    assert forall x :: x in xs[1..] ==> x in xs;
    StepsPower(xs[0], xs[1..], bound);
    PowPositive(17, |xs| - 1);
    StrictScale(EAGER_PARSE_LENGTH, xs[0], Pow(17, |xs| - 1));
  }

  lemma {:induction false} PowPositive(b: nat, e: nat)
    requires b > 0
    ensures Pow(b, e) > 0
  {
    if e > 0 {
      PowPositive(b, e - 1);
    }
  }

  lemma StrictScale(a: nat, b: nat, c: nat)
    requires a < b && c > 0
    ensures a * c < b * c
  {
  }
}
