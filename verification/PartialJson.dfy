/** `complete_partial_json`: a state machine that closes truncated JSON. */
module PartialJson {
  import opened JsonText

  datatype Kind = ObjectKind | ArrayKind

  datatype Expect = KeyOrValue | Colon | ValueDue | AfterValue

  /** One open container. The code keeps two vectors, of kinds and of
      expectations, that are always pushed and popped together. */
  datatype Frame = Frame(kind: Kind, due: Expect)

  /** The scanner's variables; `pos` is the position of the next character. */
  datatype Scan = Scan(frames: seq<Frame>, inString: bool, escaping: bool, literal: Option<nat>, pos: nat)

  const START := Scan([], false, false, None, 0)

  function WithLast(frames: seq<Frame>, e: Expect): (r: seq<Frame>)
    ensures |r| == |frames|
  {
    if frames == [] then []
    else frames[..|frames| - 1] + [frames[|frames| - 1].(due := e)]
  }

  /** A string just closed: it was a key or a value. */
  function CloseString(frames: seq<Frame>): (r: seq<Frame>)
    ensures |r| == |frames|
  {
    if frames == [] then []
    else WithLast(frames, if frames[|frames| - 1] == Frame(ObjectKind, KeyOrValue) then Colon else AfterValue)
  }

  predicate IsAsciiAlphanumeric(c: char) {
    '0' <= c <= '9' || 'a' <= c <= 'z' || 'A' <= c <= 'Z'
  }

  /** A character that starts a number, or continues the literal under way. */
  predicate InLiteral(c: char, underWay: bool) {
    IsDigit(c) || c == '-' || (underWay && (c == '.' || c == '+' || IsAsciiAlphanumeric(c)))
  }

  function Next(st: Scan, c: char): Scan {
    var at := st.pos;
    var s := st.(pos := at + 1);
    if s.inString then
      if s.escaping then s.(escaping := false)
      else if c == '\\' then s.(escaping := true)
      else if c == '"' then s.(inString := false, frames := CloseString(s.frames))
      else s
    else if c == '"' then s.(inString := true, literal := None)
    else if c == '{' then s.(frames := s.frames + [Frame(ObjectKind, KeyOrValue)], literal := None)
    else if c == '[' then s.(frames := s.frames + [Frame(ArrayKind, ValueDue)], literal := None)
    else if c == '}' || c == ']' then
      s.(frames := if s.frames == [] then [] else WithLast(s.frames[..|s.frames| - 1], AfterValue), literal := None)
    else if c == ',' then
      s.(frames := if s.frames == [] then [] else
           WithLast(s.frames, if s.frames[|s.frames| - 1].kind == ObjectKind then KeyOrValue else ValueDue),
         literal := None)
    else if c == ':' then
      s.(frames := if s.frames != [] && s.frames[|s.frames| - 1].due == Colon
                   then WithLast(s.frames, ValueDue) else s.frames,
         literal := None)
    else if InLiteral(c, s.literal.Some?) then s.(literal := if s.literal.None? then Some(at) else s.literal)
    else s
  }

  /** The scanner's state after the whole of `s`. */
  function Run(s: string): Scan {
    if s == [] then START else Next(Run(s[..|s| - 1]), s[|s| - 1])
  }

  predicate IsTruncatedTail(c: char) {
    c == '.' || c == 'e' || c == 'E' || c == '+' || c == '-'
  }

  /** `trim_end_matches` of the characters a number cannot end with. */
  function TrimNumberTail(s: string): string {
    if s != [] && IsTruncatedTail(s[|s| - 1]) then TrimNumberTail(s[..|s| - 1]) else s
  }

  /** `trim_end` */
  function TrimEnd(s: string): string {
    if s != [] && IsWhitespace(s[|s| - 1]) then TrimEnd(s[..|s| - 1]) else s
  }

  /** `trim_end_matches(',')` */
  function TrimCommas(s: string): string {
    if s != [] && s[|s| - 1] == ',' then TrimCommas(s[..|s| - 1]) else s
  }

  predicate EndsWithComma(s: string) {
    s != [] && s[|s| - 1] == ','
  }

  function Closer(k: Kind): char {
    if k == ObjectKind then '}' else ']'
  }

  /** What one popped container appends before its closer. */
  function Fill(text: string, f: Frame): string {
    match f.due
    case Colon => text + ": null"
    case ValueDue =>
      if EndsWithComma(TrimEnd(text)) then TrimCommas(TrimEnd(text))
      else if f.kind == ObjectKind then text + "null"
      else text
    case _ => text
  }

  function CloseAll(text: string, frames: seq<Frame>): string
    decreases |frames|
  {
    if frames == [] then text
    else
      var f := frames[|frames| - 1];
      CloseAll(Fill(text, f) + [Closer(f.kind)], frames[..|frames| - 1])
  }

  /** The text and containers left once the cut token is finished. */
  function FinishToken(input: string, st: Scan): (string, seq<Frame>)
    requires st.inString && st.escaping ==> input != []
    requires st.literal.Some? ==> st.literal.value <= |input|
  {
    if st.inString then
      ((if st.escaping then input[..|input| - 1] else input) + "\"", CloseString(st.frames))
    else if st.literal.Some? then
      (input[..st.literal.value] + TrimNumberTail(input[st.literal.value..]), WithLast(st.frames, AfterValue))
    else (input, st.frames)
  }

  lemma {:induction false} RunBounds(s: string)
    ensures Run(s).pos == |s|
    ensures Run(s).literal.Some? ==> Run(s).literal.value < |s|
    ensures Run(s).escaping ==> s != []
    ensures Run(s).escaping ==> Run(s).inString
    ensures Run(s).inString ==> Run(s).literal.None?
  {
    if s != [] {
      RunBounds(s[..|s| - 1]);
    }
  }

  function Finished(input: string): (string, seq<Frame>) {
    RunBounds(input);
    FinishToken(input, Run(input))
  }

  function Complete(input: string): string {
    CloseAll(Finished(input).0, Finished(input).1)
  }

  /** The scan loop over the input characters. */
  method ScanLoop(input: string) returns (st: Scan)
    ensures st == Run(input)
  {
    var frames: seq<Frame>, inString, escaping, literal: Option<nat> := [], false, false, None;
    for position := 0 to |input|
      invariant Run(input[..position]) == Scan(frames, inString, escaping, literal, position)
    {
      var ch := input[position];
      assert input[..position + 1][..position] == input[..position];
      if inString {
        if escaping {
          escaping := false;
        } else if ch == '\\' {
          escaping := true;
        } else if ch == '"' {
          inString := false;
          frames := CloseString(frames);
        }
      } else if ch == '"' {
        inString, literal := true, None;
      } else if ch == '{' {
        frames, literal := frames + [Frame(ObjectKind, KeyOrValue)], None;
      } else if ch == '[' {
        frames, literal := frames + [Frame(ArrayKind, ValueDue)], None;
      } else if ch == '}' || ch == ']' {
        frames := if frames == [] then [] else WithLast(frames[..|frames| - 1], AfterValue);
        literal := None;
      } else if ch == ',' {
        if frames != [] {
          frames := WithLast(frames, if frames[|frames| - 1].kind == ObjectKind then KeyOrValue else ValueDue);
        }
        literal := None;
      } else if ch == ':' {
        if frames != [] && frames[|frames| - 1].due == Colon {
          frames := WithLast(frames, ValueDue);
        }
        literal := None;
      } else if InLiteral(ch, literal.Some?) {
        if literal.None? {
          literal := Some(position);
        }
      }
    }
    assert input[..|input|] == input;
    st := Scan(frames, inString, escaping, literal, |input|);
  }

  /** The whole procedure: scan, finish the cut token, pop every container. */
  method CompletePartialJson(input: string) returns (completed: string)
    ensures completed == Complete(input)
  {
    var st := ScanLoop(input);
    RunBounds(input);
    var finished := FinishToken(input, st);
    completed := finished.0;
    var frames := finished.1;
    while frames != []
      invariant CloseAll(completed, frames) == Complete(input)
      decreases |frames|
    {
      var f := frames[|frames| - 1];
      frames := frames[..|frames| - 1];
      match f.due {
        case Colon => completed := completed + ": null";
        case ValueDue =>
          if EndsWithComma(TrimEnd(completed)) {
            completed := TrimCommas(TrimEnd(completed));
          } else if f.kind == ObjectKind {
            completed := completed + "null";
          }
        case KeyOrValue =>
        case AfterValue =>
      }
      completed := completed + [Closer(f.kind)];
    }
  }
}
