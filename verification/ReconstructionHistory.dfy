/** The rebuilt message and the emitted events, read off the event history. */
module ReconstructionHistory {
  import opened JsonText
  import opened StreamingParse
  import opened Reconstruction
  import opened ReconstructionFold

  // ---------------------------------------------------------------------
  // What is emitted
  // ---------------------------------------------------------------------

  predicate IsText(m: Message, i: nat) {
    i < |m.content| && m.content[i].Text?
  }

  predicate IsThinking(m: Message, i: nat) {
    i < |m.content| && m.content[i].Thinking?
  }

  predicate IsToolCall(m: Message, i: nat) {
    i < |m.content| && m.content[i].ToolCall?
  }

  /** The event is for a block of another kind, or for none. */
  predicate Mismatch(ev: ProxyEvent, m: Message) {
    || ((ev.TextDelta? || ev.TextEnd?) && !IsText(m, ev.index))
    || ((ev.ThinkingDelta? || ev.ThinkingEnd?) && !IsThinking(m, ev.index))
    || (ev.ToolcallDelta? && !IsToolCall(m, ev.index))
  }

  /** The one event that is dropped without an error. */
  predicate IsSilent(ev: ProxyEvent, m: Message) {
    ev.ToolcallEnd? && !IsToolCall(m, ev.index)
  }

  /** What the consumer gets for `ev` when the message then stands at `m`. */
  function Shown(ev: ProxyEvent, m: Message): AssistantEvent {
    var ends := (ev.TextEnd? || ev.ToolcallEnd?) && ev.index < |m.content|;
    AssistantEvent(ev, if ends then Some(m.content[ev.index]) else None, m)
  }

  /** Every event is rejected, dropped, or passed on with the finished block
      and the message as they stand after it. */
  lemma EventIsShown(ev: ProxyEvent, st: Recon)
    ensures var (next, out) := Process(ev, st);
            && (out.Rejected? <==> Mismatch(ev, st.message))
            && (out.Silent? <==> IsSilent(ev, st.message))
            && (out.Emitted? ==> out.event == Shown(ev, next.message))
            && (!out.Emitted? ==> next == st)
            && (IsSilent(ev, next.message) <==> out.Silent?)
  {
    hide ParseStreaming, Placed, Settled;
  }

  /** The events a consumer sees over an accepted run. */
  function Stream(start: Recon, es: seq<ProxyEvent>): seq<AssistantEvent>
    requires ProcessFrom(start, es).Some?
  {
    if es == [] then []
    else
      var ev, m := es[|es| - 1], ProcessFrom(start, es).value.message;
      Stream(start, es[..|es| - 1]) + if IsSilent(ev, m) then [] else [Shown(ev, m)]
  }

  lemma {:induction false} AcceptedPrefix(start: Recon, es: seq<ProxyEvent>, n: nat)
    requires n <= |es| && ProcessFrom(start, es).Some?
    ensures ProcessFrom(start, es[..n]).Some?
  {
    hide Process;
    if n < |es| {
      assert es[..|es| - 1][..n] == es[..n];
      AcceptedPrefix(start, es[..|es| - 1], n);
    } else {
      assert es[..n] == es;
    }
  }

  /** The consumer sees the accepted events in order: the entry for event `k`,
      unless it is silent, comes after those of the events before it, and shows
      the message after the first `k + 1` events. */
  lemma {:induction false} StreamEntry(start: Recon, es: seq<ProxyEvent>, k: nat)
    requires k < |es| && ProcessFrom(start, es).Some?
    ensures ProcessFrom(start, es[..k]).Some? && ProcessFrom(start, es[..k + 1]).Some?
    ensures var (before, now) := (Stream(start, es[..k]), ProcessFrom(start, es[..k + 1]).value.message);
            && before <= Stream(start, es)
            && (!IsSilent(es[k], now) ==>
                  |before| < |Stream(start, es)| && Stream(start, es)[|before|] == Shown(es[k], now))
            && (k + 1 == |es| ==> |Stream(start, es)| == |before| + if IsSilent(es[k], now) then 0 else 1)
  {
    hide ProcessFrom, Shown, IsSilent;
    AcceptedPrefix(start, es, k);
    AcceptedPrefix(start, es, k + 1);
    var n := |es| - 1;
    AcceptedPrefix(start, es, n);
    if k == n {
      assert es[..k + 1] == es;
    } else {
      assert es[..n][..k] == es[..k] && es[..n][..k + 1] == es[..k + 1];
      StreamEntry(start, es[..n], k);
    }
  }

  // ---------------------------------------------------------------------
  // Stop reason, usage and error text
  // ---------------------------------------------------------------------

  /** The last terminal event, if any. */
  function LastTerminal(es: seq<ProxyEvent>): Option<ProxyEvent> {
    if es == [] then None
    else if es[|es| - 1].Done? || es[|es| - 1].Error? then Some(es[|es| - 1])
    else LastTerminal(es[..|es| - 1])
  }

  function LastError(es: seq<ProxyEvent>): Option<ProxyEvent> {
    if es == [] then None
    else if es[|es| - 1].Error? then Some(es[|es| - 1])
    else LastError(es[..|es| - 1])
  }

  /** The stop reason each terminal event sets. */
  predicate Stops(ev: ProxyEvent, r: StopReason) {
    match ev
    case Done(DoneStop, _) => r == Stopped
    case Done(DoneLength, _) => r == LengthLimit
    case Done(DoneToolUse, _) => r == ToolUse
    case Error(ErrorAborted, _, _) => r == Aborted
    case Error(ErrorFailed, _, _) => r == Failed
    case _ => false
  }

  predicate EndsAs(m: Message, es: seq<ProxyEvent>) {
    && (match LastTerminal(es)
        case None => m.stopReason == Stopped && m.usage == Usage(0, 0, 0, 0, 0)
        case Some(ev) => Stops(ev, m.stopReason) && (ev.Done? || ev.Error? ==> m.usage == ev.usage))
    && (match LastError(es)
        case None => m.errorMessage == None
        case Some(ev) => ev.Error? && m.errorMessage == ev.errorMessage)
  }

  lemma EndsAsStep(st: Recon, es: seq<ProxyEvent>, ev: ProxyEvent)
    requires EndsAs(st.message, es) && !Process(ev, st).1.Rejected?
    ensures EndsAs(Process(ev, st).0.message, es + [ev])
  {
    hide ParseStreaming, Placed, WithArguments;
    assert (es + [ev])[..|es|] == es;
  }

  /** Over every accepted sequence stop reason and usage are those of the last
      terminal event, and the error text that of the last error. */
  lemma {:induction false} MessageEndsAs(es: seq<ProxyEvent>)
    requires ProcessAll(es).Some?
    ensures EndsAs(ProcessAll(es).value.message, es)
  {
    hide Process;
    if es != [] {
      hide EndsAs;
      var n := |es| - 1;
      MessageEndsAs(es[..n]);
      assert es == es[..n] + [es[n]];
      EndsAsStep(ProcessAll(es[..n]).value, es[..n], es[n]);
    }
  }

  // ---------------------------------------------------------------------
  // Blocks
  // ---------------------------------------------------------------------

  /** One past the largest index ever started. */
  function Extent(es: seq<ProxyEvent>): nat {
    if es == [] then 0
    else
      var ev, before := es[|es| - 1], Extent(es[..|es| - 1]);
      if (ev.TextStart? || ev.ThinkingStart? || ev.ToolcallStart?) && ev.index >= before then ev.index + 1 else before
  }

  function LastStart(es: seq<ProxyEvent>, i: nat): Option<ProxyEvent> {
    if es == [] then None
    else if IsStart(es[|es| - 1], i) then Some(es[|es| - 1])
    else LastStart(es[..|es| - 1], i)
  }

  /** The signature of the last end event of block `i` since its last start. */
  function Signature(es: seq<ProxyEvent>, i: nat): Option<string> {
    if es == [] || IsStart(es[|es| - 1], i) then None
    else if (es[|es| - 1].TextEnd? || es[|es| - 1].ThinkingEnd?) && es[|es| - 1].index == i then
      es[|es| - 1].contentSignature
    else Signature(es[..|es| - 1], i)
  }

  predicate HasShape(blocks: seq<Block>, es: seq<ProxyEvent>, i: nat) {
    && |blocks| == Extent(es)
    && (i >= |blocks| ==> LastStart(es, i).None? && Signature(es, i).None?)
    && (i < |blocks| ==>
          match LastStart(es, i)
          case Some(ThinkingStart(_)) => blocks[i].ThinkingBlock? && blocks[i].thinkingSignature == Signature(es, i)
          case Some(ToolcallStart(_, id, name)) => blocks[i].ToolBlock? && blocks[i].id == id && blocks[i].name == name
          case _ => blocks[i].TextBlock? && blocks[i].textSignature == Signature(es, i))
  }

  lemma HasShapeStep(blocks: seq<Block>, es: seq<ProxyEvent>, ev: ProxyEvent, i: nat)
    requires HasShape(blocks, es, i) && FoldStep(ev, blocks).Some?
    ensures HasShape(FoldStep(ev, blocks).value, es + [ev], i)
  {
    assert (es + [ev])[..|es|] == es;
  }

  lemma {:induction false} BlocksHaveShape(es: seq<ProxyEvent>, i: nat)
    requires FoldAll(es).Some?
    ensures HasShape(FoldAll(es).value, es, i)
  {
    hide FoldStep;
    if es != [] {
      hide HasShape;
      var n := |es| - 1;
      BlocksHaveShape(es[..n], i);
      assert es == es[..n] + [es[n]];
      HasShapeStep(FoldAll(es[..n]).value, es[..n], es[n], i);
    }
  }

  /** Over every accepted sequence the message has a block for every index up
      to the largest started. Each is of the kind last started there, a text if
      none was, and carries its id and name, or the deltas and the signature
      received since. */
  lemma BlockIsItsHistory(es: seq<ProxyEvent>, i: nat)
    requires ProcessAll(es).Some?
    ensures var content := ProcessAll(es).value.message.content;
            && |content| == Extent(es)
            && (i < |content| ==>
                  match LastStart(es, i)
                  case Some(ThinkingStart(_)) => content[i] == Thinking(Received(es, i, false), Signature(es, i))
                  case Some(ToolcallStart(_, id, name)) =>
                    content[i].ToolCall? && content[i].id == id && content[i].name == name
                  case _ => content[i] == Text(Received(es, i, false), Signature(es, i)))
  {
    hide ProcessAll, FoldAll, ParseStreaming, Received, ShowsLagging;
    RunRefines(es);
    BlocksHaveShape(es, i);
    BlocksAreTheirDeltas(es, i);
    var st, blocks := ProcessAll(es).value, FoldAll(es).value;
    if i < |blocks| {
      assert Matches(st.message.content[i], blocks[i], i, st.accs);
    }
  }
}
