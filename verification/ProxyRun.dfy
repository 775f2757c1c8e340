/** The body of `proxy_run`: newline framing over arbitrary chunks, `data: `
    lines (section 9.2 of the WHATWG HTML standard, LF ended only), and the
    terminal error event of `stream_proxy`. */
module ProxyRun {
  import opened JsonText
  import opened Reconstruction
  import opened ReconstructionFold
  import opened ReconstructionHistory

  newtype Byte = x: int | 0 <= x < 256

  const LF: Byte := 10

  // ---------------------------------------------------------------------
  // Splitting at newlines
  // ---------------------------------------------------------------------

  /** Position of the first newline, or the length. */
  function FirstNewline(b: seq<Byte>): (p: nat)
    ensures p <= |b| && LF !in b[..p]
    ensures p < |b| ==> b[p] == LF == 10
  {
    if b == [] || b[0] == LF then 0
    else
      var p := 1 + FirstNewline(b[1..]);
      assert b[..p] == [b[0]] + b[1..][..p - 1];
      p
  }

  /** The newline-ended lines of `b`, without their newlines. */
  function Lines(b: seq<Byte>): seq<seq<Byte>>
    decreases |b|
  {
    var p := FirstNewline(b);
    if p == |b| then [] else [b[..p]] + Lines(b[p + 1..])
  }

  /** What follows the last newline. */
  function Tail(b: seq<Byte>): seq<Byte>
    decreases |b|
  {
    var p := FirstNewline(b);
    if p == |b| then b else Tail(b[p + 1..])
  }

  function Unlines(lines: seq<seq<Byte>>): seq<Byte> {
    if lines == [] then [] else lines[0] + [LF] + Unlines(lines[1..])
  }

  lemma NewlineAt(line: seq<Byte>, rest: seq<Byte>)
    requires LF !in line
    ensures FirstNewline(line + [LF] + rest) == |line|
    ensures (line + [LF] + rest)[..|line|] == line && (line + [LF] + rest)[|line| + 1..] == rest
  {
    var b := line + [LF] + rest;
    assert b[|line|] == LF && b[..|line|] == line;
    assert forall i :: 0 <= i < |line| ==> b[i] == line[i];
  }

  /** `Lines` and `Tail` are the split at newlines: they rebuild the bytes, and
      no other newline-free lines and tail do. */
  lemma {:induction false} SplitIsUnique(lines: seq<seq<Byte>>, tail: seq<Byte>)
    requires (forall i :: 0 <= i < |lines| ==> LF !in lines[i]) && LF !in tail
    ensures Lines(Unlines(lines) + tail) == lines && Tail(Unlines(lines) + tail) == tail
  {
    if lines == [] {
      assert Unlines(lines) + tail == tail;
      assert tail[..|tail|] == tail;
    } else {
      var rest := Unlines(lines[1..]) + tail;
      assert Unlines(lines) + tail == lines[0] + [LF] + rest;
      NewlineAt(lines[0], rest);
      SplitIsUnique(lines[1..], tail);
    }
  }

  lemma LinesCons(line: seq<Byte>, rest: seq<Byte>)
    requires LF !in line
    ensures Lines(line + [LF] + rest) == [line] + Lines(rest) && Tail(line + [LF] + rest) == Tail(rest)
  {
    NewlineAt(line, rest);
  }

  lemma UnlinesCons(line: seq<Byte>, lines: seq<seq<Byte>>, tail: seq<Byte>)
    ensures Unlines([line] + lines) + tail == line + [LF] + (Unlines(lines) + tail)
  {
    assert ([line] + lines)[1..] == lines;
  }

  lemma NoNewline(b: seq<Byte>)
    requires FirstNewline(b) == |b|
    ensures Lines(b) == [] && Tail(b) == b && LF !in b
  {
    assert b[..|b|] == b;
  }

  lemma {:induction false} SplitRebuilds(b: seq<Byte>)
    ensures Unlines(Lines(b)) + Tail(b) == b
    ensures (forall i :: 0 <= i < |Lines(b)| ==> LF !in Lines(b)[i]) && LF !in Tail(b)
    decreases |b|
  {
    hide Lines, Tail, FirstNewline;
    var p := FirstNewline(b);
    if p == |b| {
      NoNewline(b);
      assert [] + b == b;
    } else {
      hide Unlines;
      var line, rest := b[..p], b[p + 1..];
      SplitRebuilds(rest);
      assert b == line + [LF] + rest;
      LinesCons(line, rest);
      UnlinesCons(line, Lines(rest), Tail(rest));
    }
  }

  lemma {:induction false} UnlinesAppend(a: seq<seq<Byte>>, b: seq<seq<Byte>>)
    ensures Unlines(a + b) == Unlines(a) + Unlines(b)
  {
    if a == [] {
      assert a + b == b;
    } else {
      assert (a + b)[1..] == a[1..] + b;
      UnlinesAppend(a[1..], b);
    }
  }

  /** Framing may stop anywhere and resume from the kept tail. */
  lemma SplitResumes(a: seq<Byte>, b: seq<Byte>)
    ensures Lines(a + b) == Lines(a) + Lines(Tail(a) + b)
    ensures Tail(a + b) == Tail(Tail(a) + b)
  {
    hide Lines, Tail, Unlines;
    SplitRebuilds(a);
    SplitRebuilds(Tail(a) + b);
    var lines := Lines(a) + Lines(Tail(a) + b);
    UnlinesAppend(Lines(a), Lines(Tail(a) + b));
    var more, tail := Unlines(Lines(Tail(a) + b)), Tail(Tail(a) + b);
    assert (Unlines(Lines(a)) + more) + tail == Unlines(Lines(a)) + (more + tail);
    assert Unlines(Lines(a)) + (Tail(a) + b) == (Unlines(Lines(a)) + Tail(a)) + b;
    SplitIsUnique(lines, Tail(Tail(a) + b));
  }

  // ---------------------------------------------------------------------
  // Processing lines
  // ---------------------------------------------------------------------

  /** What the text after `data: ` holds: nothing but whitespace, an event, or
      text that is no event. */
  datatype Payload = Blank | Event(event: ProxyEvent) | Invalid

  function Ascii(s: string): seq<Byte>
    requires forall i :: 0 <= i < |s| ==> s[i] as int < 128
  {
    seq(|s|, i requires 0 <= i < |s| => s[i] as int as Byte)
  }

  const DATA := Ascii("data: ")

  /** Other lines count for nothing. */
  function PayloadOf(line: seq<Byte>, decode: seq<Byte> -> Payload): Payload {
    if DATA <= line then decode(line[|DATA|..]) else Blank
  }

  /** A line counts exactly when it starts with the six bytes of `data: `; what
      follows them is the payload, possibly empty. */
  lemma PayloadIs(line: seq<Byte>, rest: seq<Byte>, decode: seq<Byte> -> Payload)
    ensures PayloadOf([100, 97, 116, 97, 58, 32] + rest, decode) == decode(rest)
    ensures !([100, 97, 116, 97, 58, 32] <= line) ==> PayloadOf(line, decode) == Blank
  {
    assert DATA == [100, 97, 116, 97, 58, 32];
    assert ([100, 97, 116, 97, 58, 32] + rest)[6..] == rest;
  }

  datatype Progress = Progress(recon: Recon, pushed: seq<AssistantEvent>, failed: bool)

  function HandleLine(p: Progress, line: seq<Byte>, decode: seq<Byte> -> Payload): Progress {
    match PayloadOf(line, decode)
    case Blank => p
    case Invalid => p.(failed := true)
    case Event(ev) =>
      var (recon, out) := Process(ev, p.recon);
      Progress(recon, if out.Emitted? then p.pushed + [out.event] else p.pushed, out.Rejected?)
  }

  /** The first failure ends the run. */
  function HandleLines(p: Progress, lines: seq<seq<Byte>>, decode: seq<Byte> -> Payload): Progress
    decreases lines
  {
    if p.failed || lines == [] then p else HandleLines(HandleLine(p, lines[0], decode), lines[1..], decode)
  }

  lemma {:induction false} HandleAppend(p: Progress, a: seq<seq<Byte>>, b: seq<seq<Byte>>, decode: seq<Byte> -> Payload)
    ensures HandleLines(p, a + b, decode) == HandleLines(HandleLines(p, a, decode), b, decode)
    decreases a
  {
    if a == [] {
      assert a + b == b;
    } else if !p.failed {
      assert (a + b)[1..] == a[1..] + b;
      HandleAppend(HandleLine(p, a[0], decode), a[1..], b, decode);
    }
  }

  function Concat(chunks: seq<seq<Byte>>): seq<Byte> {
    if chunks == [] then [] else chunks[0] + Concat(chunks[1..])
  }

  lemma {:induction false} ConcatSnoc(chunks: seq<seq<Byte>>, c: seq<Byte>)
    ensures Concat(chunks + [c]) == Concat(chunks) + c
  {
    if chunks == [] {
      assert chunks + [c] == [c];
      assert Concat([c]) == c + Concat([c][1..]);
    } else {
      assert (chunks + [c])[1..] == chunks[1..] + [c];
      ConcatSnoc(chunks[1..], c);
    }
  }

  /** The events carried by the lines, up to the first failure. */
  function Events(lines: seq<seq<Byte>>, decode: seq<Byte> -> Payload): seq<ProxyEvent> {
    if lines == [] then []
    else match PayloadOf(lines[0], decode)
      case Blank => Events(lines[1..], decode)
      case Event(ev) => [ev] + Events(lines[1..], decode)
      case Invalid => []
  }

  /** Draining the first complete line of the buffer. */
  lemma DrainOne(p: Progress, buffer: seq<Byte>, decode: seq<Byte> -> Payload)
    requires !p.failed && FirstNewline(buffer) < |buffer|
    ensures var n := FirstNewline(buffer);
            && HandleLines(p, Lines(buffer), decode)
               == HandleLines(HandleLine(p, buffer[..n], decode), Lines(buffer[n + 1..]), decode)
            && Tail(buffer) == Tail(buffer[n + 1..])
  {
    hide HandleLine, HandleLines, Lines, Tail, FirstNewline;
    var n := FirstNewline(buffer);
    FirstLine(buffer);
    HandleFirst(p, buffer[..n], Lines(buffer[n + 1..]), decode);
  }

  lemma FirstLine(buffer: seq<Byte>)
    requires FirstNewline(buffer) < |buffer|
    ensures var n := FirstNewline(buffer);
            Lines(buffer) == [buffer[..n]] + Lines(buffer[n + 1..]) && Tail(buffer) == Tail(buffer[n + 1..])
  {
    hide FirstNewline;
  }

  lemma HandleFirst(p: Progress, line: seq<Byte>, later: seq<seq<Byte>>, decode: seq<Byte> -> Payload)
    requires !p.failed
    ensures HandleLines(p, [line] + later, decode) == HandleLines(HandleLine(p, line, decode), later, decode)
  {
    hide HandleLine;
    assert ([line] + later)[1..] == later;
  }

  lemma NothingToDrain(p: Progress, buffer: seq<Byte>, decode: seq<Byte> -> Payload)
    requires FirstNewline(buffer) == |buffer|
    ensures HandleLines(p, Lines(buffer), decode) == p && Tail(buffer) == buffer
  {
  }

  class ProxyClient {
    var byteBuffer: seq<Byte>
    var pushed: seq<AssistantEvent>
    const reconstruction: ProxyReconstruction
    const decode: seq<Byte> -> Payload

    ghost predicate Valid()
      reads this, reconstruction, reconstruction.partialJson.Values
    {
      reconstruction.Valid()
    }

    ghost function View(failed: bool): Progress
      reads this, reconstruction, reconstruction.partialJson.Values
    {
      Progress(reconstruction.View(), pushed, failed)
    }

    constructor (decode: seq<Byte> -> Payload)
      ensures Valid() && fresh(reconstruction) && fresh(reconstruction.partialJson.Values)
      ensures this.decode == decode && byteBuffer == [] && View(false) == Progress(NEW_RECON, [], false)
    {
      byteBuffer, pushed := [], [];
      this.decode := decode;
      reconstruction := new ProxyReconstruction();
    }

    method ReceiveLine(line: seq<Byte>) returns (failed: bool)
      requires Valid()
      modifies this`pushed, reconstruction, reconstruction.partialJson.Values
      ensures Valid()
      ensures fresh(reconstruction.partialJson.Values - old(reconstruction.partialJson.Values))
      ensures View(failed) == HandleLine(old(View(false)), line, decode)
    {
      hide Process;
      if DATA <= line {
        var payload := decode(line[|DATA|..]);
        match payload {
          case Blank =>
          case Invalid => return true;
          case Event(ev) =>
            var out := reconstruction.ProcessEvent(ev);
            if out.Emitted? {
              pushed := pushed + [out.event];
            }
            return out.Rejected?;
        }
      }
      return false;
    }

    /** One chunk: extend the buffer, then drain its complete lines. */
    method ReceiveChunk(chunk: seq<Byte>) returns (failed: bool)
      requires Valid()
      modifies this, reconstruction, reconstruction.partialJson.Values
      ensures Valid()
      ensures fresh(reconstruction.partialJson.Values - old(reconstruction.partialJson.Values))
      ensures View(failed) == HandleLines(old(View(false)), Lines(old(byteBuffer) + chunk), decode)
      ensures !failed ==> byteBuffer == Tail(old(byteBuffer) + chunk)
    {
      hide HandleLine, HandleLines, Lines, Tail, FirstNewline, ProxyReconstruction.View, ProxyReconstruction.Valid;
      byteBuffer := byteBuffer + chunk;
      ghost var start := old(View(false));
      ghost var all := byteBuffer;
      var position := FirstNewline(byteBuffer);
      while position < |byteBuffer|
        invariant Valid() && position == FirstNewline(byteBuffer)
        invariant fresh(reconstruction.partialJson.Values - old(reconstruction.partialJson.Values))
        invariant HandleLines(View(false), Lines(byteBuffer), decode) == HandleLines(start, Lines(all), decode)
        invariant Tail(byteBuffer) == Tail(all)
        decreases |byteBuffer|
      {
        var line := byteBuffer[..position];
        DrainOne(View(false), byteBuffer, decode);
        byteBuffer := byteBuffer[position + 1..];
        var bad := ReceiveLine(line);
        if bad {
          FailedStays(View(true), Lines(byteBuffer), decode);
          return true;
        }
        position := FirstNewline(byteBuffer);
      }
      failed := false;
      NothingToDrain(View(false), byteBuffer, decode);
    }

    /** The whole response body, in whatever chunks it comes. */
    method ReceiveAll(chunks: seq<seq<Byte>>) returns (failed: bool)
      requires Valid() && byteBuffer == []
      modifies this, reconstruction, reconstruction.partialJson.Values
      ensures Valid()
      ensures View(failed) == HandleLines(old(View(false)), Lines(Concat(chunks)), decode)
    {
      hide HandleLine, HandleLines, Lines, Tail, FirstNewline, ProxyReconstruction.View, ProxyReconstruction.Valid;
      ghost var start := old(View(false));
      ghost var done: seq<Byte> := [];
      NothingToDrain(start, done, decode);
      failed := false;
      var i := 0;
      while i < |chunks| && !failed
        invariant 0 <= i <= |chunks| && Valid() && done == Concat(chunks[..i])
        invariant fresh(reconstruction.partialJson.Values - old(reconstruction.partialJson.Values))
        invariant View(failed) == HandleLines(start, Lines(done), decode)
        invariant !failed ==> byteBuffer == Tail(done)
        decreases |chunks| - i, !failed
      {
        SplitResumes(done, chunks[i]);
        HandleAppend(start, Lines(done), Lines(Tail(done) + chunks[i]), decode);
        assert chunks[..i + 1] == chunks[..i] + [chunks[i]];
        ConcatSnoc(chunks[..i], chunks[i]);
        failed := ReceiveChunk(chunks[i]);
        done := done + chunks[i];
        i := i + 1;
      }
      if failed {
        FailureIsFinal(start, chunks, i, decode);
      } else {
        assert chunks[..i] == chunks;
      }
    }

    /** The terminal error event of a failed or aborted request. */
    method Conclude(aborted: bool, text: string)
      requires Valid()
      modifies this`pushed, reconstruction, reconstruction.partialJson.Values
      ensures Valid()
      ensures var (recon, out) := Process(TerminalError(old(View(true)), aborted, text), old(View(true)).recon);
              View(true).recon == recon && out.Emitted? && pushed == old(pushed) + [out.event]
      ensures var (was, now) := (old(reconstruction.partial), reconstruction.partial);
              && now.stopReason == (if aborted then Aborted else Failed)
              && now.errorMessage == Some(text) && now.usage == was.usage
              && pushed[|pushed| - 1].message == now
    {
      hide Settled, Tail, Lines;
      var reason := if aborted then ErrorAborted else ErrorFailed;
      var usage := reconstruction.partial.usage;
      reconstruction.Fail(reason, Some(text), usage);
      pushed := pushed + [AssistantEvent(Error(reason, Some(text), usage), None, reconstruction.partial)];
    }
  }

  /** The wrapper's error event has the effect of an error event that keeps the
      usage received so far. */
  function TerminalError(p: Progress, aborted: bool, text: string): ProxyEvent {
    Error(if aborted then ErrorAborted else ErrorFailed, Some(text), p.recon.message.usage)
  }

  lemma FailureIsFinal(p: Progress, chunks: seq<seq<Byte>>, i: nat, decode: seq<Byte> -> Payload)
    requires i <= |chunks| && HandleLines(p, Lines(Concat(chunks[..i])), decode).failed
    ensures HandleLines(p, Lines(Concat(chunks)), decode) == HandleLines(p, Lines(Concat(chunks[..i])), decode)
  {
    var a, b := Concat(chunks[..i]), Concat(chunks[i..]);
    assert chunks == chunks[..i] + chunks[i..];
    ConcatAppend(chunks[..i], chunks[i..]);
    SplitResumes(a, b);
    HandleAppend(p, Lines(a), Lines(Tail(a) + b), decode);
  }

  lemma {:induction false} ConcatAppend(a: seq<seq<Byte>>, b: seq<seq<Byte>>)
    ensures Concat(a + b) == Concat(a) + Concat(b)
  {
    if a == [] {
      assert a + b == b;
    } else {
      assert (a + b)[1..] == a[1..] + b;
      ConcatAppend(a[1..], b);
    }
  }

  // ---------------------------------------------------------------------
  // The run as the reducer over the decoded events
  // ---------------------------------------------------------------------

  lemma HandleOne(p: Progress, lines: seq<seq<Byte>>, decode: seq<Byte> -> Payload)
    requires !p.failed && lines != []
    ensures HandleLines(p, lines, decode) == HandleLines(HandleLine(p, lines[0], decode), lines[1..], decode)
  {
  }

  /** A run that does not fail holds exactly what the reducer makes of the
      events of its complete lines, in order; the unterminated tail never
      counts. */
  lemma SuccessfulRun(es: seq<ProxyEvent>, p: Progress, lines: seq<seq<Byte>>, decode: seq<Byte> -> Payload)
    requires ProcessAll(es) == Some(p.recon) && !p.failed && !HandleLines(p, lines, decode).failed
    ensures ProcessAll(es + Events(lines, decode)) == Some(HandleLines(p, lines, decode).recon)
  {
    hide ProcessFrom, HandleLines, Events;
    var all := Events(lines, decode);
    var n := RunIsItsEvents(NEW_RECON, es, p.(pushed := Stream(NEW_RECON, es)), [], lines, decode);
    PushedIsOutput(p, Stream(NEW_RECON, es), lines, decode);
    assert all[..n] == all;
  }

  /** What was pushed before has no influence. */
  lemma {:induction false} PushedIsOutput(p: Progress, pushed: seq<AssistantEvent>, lines: seq<seq<Byte>>,
                                          decode: seq<Byte> -> Payload)
    ensures var (a, b) := (HandleLines(p, lines, decode), HandleLines(p.(pushed := pushed), lines, decode));
            a.recon == b.recon && a.failed == b.failed
    decreases lines
  {
    hide Process, PayloadOf;
    if !p.failed && lines != [] {
      var a, b := HandleLine(p, lines[0], decode), HandleLine(p.(pushed := pushed), lines[0], decode);
      assert b == a.(pushed := b.pushed);
      PushedIsOutput(a, b.pushed, lines[1..], decode);
    }
  }

  /** Any run, from any state reached by `es`: it accepts some `n` of the events
      of its lines. The reducer ends where those lead, and what is pushed is
      what was, followed by what they show, in order. The run fails exactly when
      the event after them is rejected or a line is no event. */
  lemma {:induction false} RunIsItsEvents(start: Recon, es: seq<ProxyEvent>, p: Progress, base: seq<AssistantEvent>,
                                          lines: seq<seq<Byte>>, decode: seq<Byte> -> Payload)
    returns (n: nat)
    requires ProcessFrom(start, es) == Some(p.recon) && p.pushed == base + Stream(start, es) && !p.failed
    ensures n <= |Events(lines, decode)|
    ensures var (all, r) := (Events(lines, decode), HandleLines(p, lines, decode));
            && ProcessFrom(start, es + all[..n]) == Some(r.recon)
            && r.pushed == base + Stream(start, es + all[..n])
            && (n < |all| ==> ProcessFrom(start, es + all[..n + 1]).None?)
            && (r.failed <==> n < |all| || exists i :: 0 <= i < |lines| && PayloadOf(lines[i], decode).Invalid?)
    decreases lines
  {
    hide ProcessFrom, HandleLines, Stream, PayloadOf;
    if lines == [] {
      NoLines(p, decode);
      n := 0;
      assert es + [] == es;
    } else {
      HandleOne(p, lines, decode);
      var later := Events(lines[1..], decode);
      InvalidLater(lines, decode);
      if PayloadOf(lines[0], decode).Invalid? {
        FailedStays(HandleLine(p, lines[0], decode), lines[1..], decode);
        n := 0;
        assert es + [] == es;
      } else if PayloadOf(lines[0], decode).Event? {
        var ev := PayloadOf(lines[0], decode).event;
        var next := HandleLine(p, lines[0], decode);
        HandleEvent(start, es, p, base, lines[0], decode, ev);
        if next.failed {
          FailedStays(next, lines[1..], decode);
          n := 0;
          assert es + [] == es && ([ev] + later)[..1] == [ev];
        } else {
          var m := RunIsItsEvents(start, es + [ev], next, base, lines[1..], decode);
          n := m + 1;
          assert es + ([ev] + later)[..n] == es + [ev] + later[..m];
          assert m < |later| ==> es + ([ev] + later)[..n + 1] == es + [ev] + later[..m + 1];
        }
      } else {
        n := RunIsItsEvents(start, es, p, base, lines[1..], decode);
      }
    }
  }

  /** One event: its effect on the reducer and on the stream. */
  lemma HandleEvent(start: Recon, es: seq<ProxyEvent>, p: Progress, base: seq<AssistantEvent>, line: seq<Byte>,
                    decode: seq<Byte> -> Payload, ev: ProxyEvent)
    requires ProcessFrom(start, es) == Some(p.recon) && p.pushed == base + Stream(start, es) && !p.failed
    requires PayloadOf(line, decode) == Event(ev)
    ensures var next := HandleLine(p, line, decode);
            && (next.failed <==> ProcessFrom(start, es + [ev]).None?)
            && (next.failed ==> next == p.(failed := true))
            && (!next.failed ==>
                  ProcessFrom(start, es + [ev]) == Some(next.recon)
                  && next.pushed == base + Stream(start, es + [ev]))
  {
    assert (es + [ev])[..|es|] == es && (es + [ev])[|es|] == ev;
    EventIsShown(ev, p.recon);
    hide Process, IsSilent, Shown, Mismatch, PayloadOf;
    var next := HandleLine(p, line, decode);
    if ProcessFrom(start, es + [ev]).Some? {
      var m := next.recon.message;
      var shown := if IsSilent(ev, m) then [] else [Shown(ev, m)];
      assert Stream(start, es + [ev]) == Stream(start, es) + shown;
      assert base + (Stream(start, es) + shown) == base + Stream(start, es) + shown;
    }
  }

  lemma InvalidLater(lines: seq<seq<Byte>>, decode: seq<Byte> -> Payload)
    requires lines != []
    ensures (exists i :: 0 <= i < |lines| && PayloadOf(lines[i], decode).Invalid?) <==>
            || PayloadOf(lines[0], decode).Invalid?
            || exists i :: 0 <= i < |lines[1..]| && PayloadOf(lines[1..][i], decode).Invalid?
  {
    hide PayloadOf;
    if i :| 0 <= i < |lines| && PayloadOf(lines[i], decode).Invalid? {
      assert i > 0 ==> PayloadOf(lines[1..][i - 1], decode).Invalid?;
    }
    if i :| 0 <= i < |lines[1..]| && PayloadOf(lines[1..][i], decode).Invalid? {
      assert PayloadOf(lines[i + 1], decode).Invalid?;
    }
  }

  lemma NoLines(p: Progress, decode: seq<Byte> -> Payload)
    ensures HandleLines(p, [], decode) == p
  {
  }

  lemma FailedStays(p: Progress, lines: seq<seq<Byte>>, decode: seq<Byte> -> Payload)
    requires p.failed
    ensures HandleLines(p, lines, decode) == p
  {
  }
}
