/** The reducer with its throttled accumulators refines a plain fold that just
    concatenates deltas and would reparse everything. */
module ReconstructionFold {
  import opened JsonText
  import opened JsonGrammar
  import opened StreamingParse
  import opened Accumulator
  import opened Reconstruction

  /** A block as a plain fold keeps it: the text received for it. A tool call
      is open while deltas go to its current text. */
  datatype Block =
    | TextBlock(text: string, textSignature: Option<string>)
    | ThinkingBlock(text: string, thinkingSignature: Option<string>)
    | ToolBlock(id: string, name: string, text: string, isOpen: bool)

  const GAP_BLOCK := TextBlock("", None)

  function PlacedBlock(blocks: seq<Block>, index: nat, b: Block): (r: seq<Block>)
    ensures |r| == if index < |blocks| then |blocks| else index + 1
    ensures r[index] == b
    ensures forall i :: 0 <= i < |r| && i != index ==> r[i] == if i < |blocks| then blocks[i] else GAP_BLOCK
  {
    if index < |blocks| then blocks[index := b]
    else blocks + seq(index - |blocks|, _ => GAP_BLOCK) + [b]
  }

  /** The plain fold; `None` rejects the event. */
  function FoldStep(ev: ProxyEvent, blocks: seq<Block>): Option<seq<Block>> {
    match ev
    case TextStart(i) => Some(PlacedBlock(blocks, i, GAP_BLOCK))
    case ThinkingStart(i) => Some(PlacedBlock(blocks, i, ThinkingBlock("", None)))
    case ToolcallStart(i, id, name) => Some(PlacedBlock(blocks, i, ToolBlock(id, name, "", true)))
    case TextDelta(i, d) =>
      if i < |blocks| && blocks[i].TextBlock? then
        Some(blocks[i := TextBlock(blocks[i].text + d, blocks[i].textSignature)])
      else None
    case ThinkingDelta(i, d) =>
      if i < |blocks| && blocks[i].ThinkingBlock? then
        Some(blocks[i := ThinkingBlock(blocks[i].text + d, blocks[i].thinkingSignature)])
      else None
    case ToolcallDelta(i, d) =>
      if i < |blocks| && blocks[i].ToolBlock? then
        var text := if blocks[i].isOpen then blocks[i].text + d else d;
        Some(blocks[i := blocks[i].(text := text, isOpen := true)])
      else None
    case TextEnd(i, sig) =>
      if i < |blocks| && blocks[i].TextBlock? then Some(blocks[i := blocks[i].(textSignature := sig)]) else None
    case ThinkingEnd(i, sig) =>
      if i < |blocks| && blocks[i].ThinkingBlock? then Some(blocks[i := blocks[i].(thinkingSignature := sig)]) else None
    case ToolcallEnd(i) =>
      if i < |blocks| && blocks[i].ToolBlock? then Some(blocks[i := blocks[i].(isOpen := false)]) else Some(blocks)
    case _ => Some(blocks)
  }

  /** Both folds over a whole event sequence, stopping at a rejection. */
  function FoldAll(es: seq<ProxyEvent>): Option<seq<Block>> {
    if es == [] then Some([])
    else
      var before := FoldAll(es[..|es| - 1]);
      if before.None? then None else FoldStep(es[|es| - 1], before.value)
  }

  const NEW_RECON := Recon(Message([], Usage(0, 0, 0, 0, 0), Stopped, None), map[])

  function ProcessFrom(start: Recon, es: seq<ProxyEvent>): Option<Recon> {
    if es == [] then Some(start)
    else
      var before := ProcessFrom(start, es[..|es| - 1]);
      if before.None? then None
      else
        var (st, out) := Process(es[|es| - 1], before.value);
        if out.Rejected? then None else Some(st)
  }

  function ProcessAll(es: seq<ProxyEvent>): Option<Recon> {
    ProcessFrom(NEW_RECON, es)
  }

  // ---------------------------------------------------------------------
  // The relation
  // ---------------------------------------------------------------------

  /** An open tool call shows the parse of a prefix of its text, and of all of
      it unless the throttle is holding the refresh back. */
  ghost predicate ShowsLagging(acc: State, text: string, arguments: Json) {
    && acc.text == text && Shows(acc, arguments)
    && (arguments == ParseStreaming(text) || Throttled(Utf16Length(text), acc.parsedLength))
  }

  ghost predicate Matches(c: Content, b: Block, i: nat, accs: map<nat, State>) {
    match b
    case TextBlock(text, sig) => c == Text(text, sig)
    case ThinkingBlock(text, sig) => c == Thinking(text, sig)
    case ToolBlock(id, name, text, isOpen) =>
      && c.ToolCall? && c.id == id && c.name == name
      && (isOpen <==> i in accs)
      && if isOpen then ShowsLagging(accs[i], text, c.arguments) else c.arguments == ParseStreaming(text)
  }

  ghost predicate Related(st: Recon, blocks: seq<Block>) {
    && |st.message.content| == |blocks|
    && forall i :: 0 <= i < |blocks| ==> Matches(st.message.content[i], blocks[i], i, st.accs)
  }

  /** Every tool call shows the parse of all its text. */
  predicate Current(st: Recon, blocks: seq<Block>) {
    && |st.message.content| == |blocks|
    && forall i :: 0 <= i < |blocks| && blocks[i].ToolBlock? ==>
         st.message.content[i].ToolCall? && st.message.content[i].arguments == ParseStreaming(blocks[i].text)
  }

  lemma AppendMatches(c: Content, b: Block, i: nat, accs: map<nat, State>, d: string)
    requires b.ToolBlock? && Matches(c, b, i, accs)
    ensures var (acc, parsed) := (if i in accs then accs[i] else EMPTY).Appended(d);
            var text := if b.isOpen then b.text + d else d;
            Matches(WithArguments(c, parsed), b.(text := text, isOpen := true), i, accs[i := acc])
  {
    hide ParseStreaming;
    if i in accs {
      AppendKeepsPreview(accs[i], c.arguments, d);
    } else {
      assert "" + d == d;
      var (acc, parsed) := EMPTY.Appended(d);
      assert acc.text <= acc.text && Utf16Length(acc.text) == acc.parsedLength;
    }
  }

  lemma SettledMatches(st: Recon, blocks: seq<Block>)
    requires Related(st, blocks)
    ensures Related(Settled(st), blocks) && Current(Settled(st), blocks)
  {
    hide ParseStreaming;
    forall i | 0 <= i < |blocks|
      ensures Matches(Settled(st).message.content[i], blocks[i], i, Settled(st).accs)
      ensures blocks[i].ToolBlock? ==> Settled(st).message.content[i].arguments == ParseStreaming(blocks[i].text)
    {
      assert Matches(st.message.content[i], blocks[i], i, st.accs);
      if blocks[i].ToolBlock? && i in st.accs {
        FlushMakesCurrent(st.accs[i], st.message.content[i].arguments);
      }
    }
  }

  /** A block that no accumulator change touches still matches. */
  lemma MatchesElsewhere(c: Content, b: Block, i: nat, accs: map<nat, State>, accs': map<nat, State>)
    requires Matches(c, b, i, accs) && (i in accs <==> i in accs') && (i in accs ==> accs[i] == accs'[i])
    ensures Matches(c, b, i, accs')
  {
  }

  /** The event is accepted by one exactly when by the other, and the relation
      is kept. */
  lemma StepRefines(ev: ProxyEvent, st: Recon, blocks: seq<Block>)
    requires Related(st, blocks)
    ensures Process(ev, st).1.Rejected? <==> FoldStep(ev, blocks).None?
    ensures FoldStep(ev, blocks).Some? ==> Related(Process(ev, st).0, FoldStep(ev, blocks).value)
  {
    hide Matches;
    KindsAgree(st, blocks);
    match ev
    case ToolcallStart(i, id, name) => StartRefines(ev, st, blocks);
    case ToolcallDelta(i, d) =>
      if i < |blocks| && blocks[i].ToolBlock? {
        DeltaRefines(st, blocks, i, d);
      }
    case ToolcallEnd(i) =>
      if i < |blocks| && blocks[i].ToolBlock? {
        EndRefines(st, blocks, i);
      }
    case Error(_, _, _) => SettledMatches(st, blocks);
    case _ => PlainRefines(ev, st, blocks);
  }

  lemma KindsAgree(st: Recon, blocks: seq<Block>)
    requires Related(st, blocks)
    ensures forall i :: 0 <= i < |blocks| ==>
              && (blocks[i].TextBlock? <==> st.message.content[i].Text?)
              && (blocks[i].ThinkingBlock? <==> st.message.content[i].Thinking?)
              && (blocks[i].ToolBlock? <==> st.message.content[i].ToolCall?)
  {
    forall i | 0 <= i < |blocks|
      ensures (blocks[i].TextBlock? <==> st.message.content[i].Text?)
      ensures (blocks[i].ThinkingBlock? <==> st.message.content[i].Thinking?)
      ensures (blocks[i].ToolBlock? <==> st.message.content[i].ToolCall?)
    {
      assert Matches(st.message.content[i], blocks[i], i, st.accs);
    }
  }

  /** Replacing one block and its accumulator keeps the relation. */
  lemma Replace(st: Recon, blocks: seq<Block>, st': Recon, blocks': seq<Block>, i: nat)
    requires Related(st, blocks) && i < |blocks'| && |st'.message.content| == |blocks'|
    requires Matches(st'.message.content[i], blocks'[i], i, st'.accs)
    requires forall k :: k != i ==> (k in st.accs <==> k in st'.accs) && (k in st.accs ==> st.accs[k] == st'.accs[k])
    requires forall k :: 0 <= k < |blocks'| && k != i ==>
               if k < |blocks| then blocks'[k] == blocks[k] && st'.message.content[k] == st.message.content[k]
               else blocks'[k] == GAP_BLOCK && st'.message.content[k] == GAP
    ensures Related(st', blocks')
  {
    forall k | 0 <= k < |blocks'|
      ensures Matches(st'.message.content[k], blocks'[k], k, st'.accs)
    {
      if k != i && k < |blocks| {
        MatchesElsewhere(st.message.content[k], blocks[k], k, st.accs, st'.accs);
      }
    }
  }

  lemma StartRefines(ev: ProxyEvent, st: Recon, blocks: seq<Block>)
    requires Related(st, blocks) && ev.ToolcallStart?
    ensures Related(Process(ev, st).0, FoldStep(ev, blocks).value)
  {
    hide ParseStreaming;
    EmptyShowsEmptyObject();
    BlankIsEmptyObject();
    Replace(st, blocks, Process(ev, st).0, FoldStep(ev, blocks).value, ev.index);
  }

  lemma BlankIsEmptyObject()
    ensures ParseStreaming("") == EMPTY_OBJECT
  {
  }

  lemma DeltaRefines(st: Recon, blocks: seq<Block>, i: nat, d: string)
    requires Related(st, blocks) && i < |blocks| && blocks[i].ToolBlock?
    ensures st.message.content[i].ToolCall?
    ensures Related(ToolAppended(st, i, d), FoldStep(ToolcallDelta(i, d), blocks).value)
  {
    hide ParseStreaming, Throttled, Utf16Length;
    KindsAgree(st, blocks);
    AppendMatches(st.message.content[i], blocks[i], i, st.accs, d);
    hide Matches;
    Replace(st, blocks, ToolAppended(st, i, d), FoldStep(ToolcallDelta(i, d), blocks).value, i);
  }

  lemma EndRefines(st: Recon, blocks: seq<Block>, i: nat)
    requires Related(st, blocks) && i < |blocks| && blocks[i].ToolBlock?
    ensures st.message.content[i].ToolCall?
    ensures ToolEnded(st, i).message.content[i].arguments == ParseStreaming(blocks[i].text)
    ensures Related(ToolEnded(st, i), FoldStep(ToolcallEnd(i), blocks).value)
  {
    hide ParseStreaming, Throttled, Utf16Length;
    KindsAgree(st, blocks);
    var c := st.message.content[i];
    assert Matches(c, blocks[i], i, st.accs);
    if i in st.accs {
      FlushMakesCurrent(st.accs[i], c.arguments);
    }
    Replace(st, blocks, ToolEnded(st, i), FoldStep(ToolcallEnd(i), blocks).value, i);
  }

  lemma PlainRefines(ev: ProxyEvent, st: Recon, blocks: seq<Block>)
    requires Related(st, blocks)
    requires !ev.ToolcallStart? && !ev.ToolcallDelta? && !ev.ToolcallEnd? && !ev.Error?
    ensures Process(ev, st).1.Rejected? <==> FoldStep(ev, blocks).None?
    ensures FoldStep(ev, blocks).Some? ==> Related(Process(ev, st).0, FoldStep(ev, blocks).value)
  {
    hide ParseStreaming, Throttled, Utf16Length;
    KindsAgree(st, blocks);
    if FoldStep(ev, blocks).Some? && !ev.Start? && !ev.Done? {
      assert ev.index < |blocks| ==> Matches(st.message.content[ev.index], blocks[ev.index], ev.index, st.accs);
      Replace(st, blocks, Process(ev, st).0, FoldStep(ev, blocks).value, ev.index);
    }
  }

  // ---------------------------------------------------------------------
  // Whole event sequences
  // ---------------------------------------------------------------------

  /** Over every event sequence: the reducer accepts it exactly when the plain
      fold does, and then rebuilds the same message up to the lag of open tool
      calls. */
  lemma {:induction false} RunRefines(es: seq<ProxyEvent>)
    ensures ProcessAll(es).Some? <==> FoldAll(es).Some?
    ensures ProcessAll(es).Some? ==> Related(ProcessAll(es).value, FoldAll(es).value)
  {
    hide Process, FoldStep, Matches;
    if es != [] {
      RunRefines(es[..|es| - 1]);
      if FoldAll(es[..|es| - 1]).Some? {
        StepRefines(es[|es| - 1], ProcessAll(es[..|es| - 1]).value, FoldAll(es[..|es| - 1]).value);
      }
    }
  }

  /** After `toolcall_end` its tool call, and after an error every tool call,
      shows the parse of everything received for it. */
  lemma TerminalEventsAreCurrent(es: seq<ProxyEvent>)
    requires es != [] && ProcessAll(es).Some?
    ensures FoldAll(es).Some?
    ensures var (st, blocks, last) := (ProcessAll(es).value, FoldAll(es).value, es[|es| - 1]);
            && (last.Error? ==> Current(st, blocks))
            && (last.ToolcallEnd? && last.index < |blocks| && blocks[last.index].ToolBlock? ==>
                  && |st.message.content| == |blocks| && st.message.content[last.index].ToolCall?
                  && st.message.content[last.index].arguments == ParseStreaming(blocks[last.index].text))
  {
    hide ParseStreaming, Matches;
    RunRefines(es);
    RunRefines(es[..|es| - 1]);
    var last := es[|es| - 1];
    var st, blocks := ProcessAll(es[..|es| - 1]).value, FoldAll(es[..|es| - 1]).value;
    if last.Error? {
      SettledMatches(st, blocks);
    } else if last.ToolcallEnd? && last.index < |blocks| && blocks[last.index].ToolBlock? {
      EndRefines(st, blocks, last.index);
    }
  }

  /** The settle done on every failure path: after it nothing lags. */
  lemma FailurePathIsCurrent(es: seq<ProxyEvent>)
    requires ProcessAll(es).Some?
    ensures FoldAll(es).Some? && Current(Settled(ProcessAll(es).value), FoldAll(es).value)
  {
    hide ParseStreaming, Matches;
    RunRefines(es);
    SettledMatches(ProcessAll(es).value, FoldAll(es).value);
  }

  // ---------------------------------------------------------------------
  // The plain fold, read off the event history
  // ---------------------------------------------------------------------

  predicate IsStart(ev: ProxyEvent, i: nat) {
    (ev.TextStart? || ev.ThinkingStart? || ev.ToolcallStart?) && ev.index == i
  }

  predicate IsDelta(ev: ProxyEvent, i: nat) {
    (ev.TextDelta? || ev.ThinkingDelta? || ev.ToolcallDelta?) && ev.index == i
  }

  /** Where the text of block `i` begins anew: at a start, and for a tool call
      also at its end, since later deltas go to a new accumulator. */
  predicate Restarts(ev: ProxyEvent, i: nat, tool: bool) {
    IsStart(ev, i) || (tool && ev.ToolcallEnd? && ev.index == i)
  }

  /** Events up to and including the last restart of block `i`; 0 if none. */
  function LastRestart(es: seq<ProxyEvent>, i: nat, tool: bool): (n: nat)
    ensures n <= |es|
    ensures n > 0 ==> Restarts(es[n - 1], i, tool)
    ensures forall k :: n <= k < |es| ==> !Restarts(es[k], i, tool)
  {
    if es == [] then 0
    else if Restarts(es[|es| - 1], i, tool) then |es|
    else LastRestart(es[..|es| - 1], i, tool)
  }

  /** The deltas of block `i` in `es`, concatenated. */
  function Deltas(es: seq<ProxyEvent>, i: nat): string {
    if es == [] then ""
    else Deltas(es[..|es| - 1], i) + if IsDelta(es[|es| - 1], i) then es[|es| - 1].delta else ""
  }

  function Received(es: seq<ProxyEvent>, i: nat, tool: bool): string {
    Deltas(es[LastRestart(es, i, tool)..], i)
  }

  lemma ReceivedStep(es: seq<ProxyEvent>, ev: ProxyEvent, i: nat, tool: bool)
    ensures Received(es + [ev], i, tool) ==
            if Restarts(ev, i, tool) then "" else Received(es, i, tool) + if IsDelta(ev, i) then ev.delta else ""
  {
    var all := es + [ev];
    assert all[..|es|] == es;
    if Restarts(ev, i, tool) {
      assert all[|all|..] == [];
    } else {
      var n := LastRestart(es, i, tool);
      assert LastRestart(all, i, tool) == n;
      assert all[n..] == es[n..] + [ev];
      assert (es[n..] + [ev])[..|es[n..]|] == es[n..];
    }
  }

  /** One step of the plain fold, seen at block `i`. */
  lemma StepText(ev: ProxyEvent, blocks: seq<Block>, i: nat)
    requires FoldStep(ev, blocks).Some?
    ensures var next := FoldStep(ev, blocks).value;
            && (IsStart(ev, i) ==> i < |next| && next[i].text == "" && (next[i].ToolBlock? ==> next[i].isOpen))
            && (!IsStart(ev, i) && i < |blocks| ==> i < |next| && (next[i].ToolBlock? <==> blocks[i].ToolBlock?))
            && (!IsStart(ev, i) && i >= |blocks| ==>
                  !IsDelta(ev, i) && (i < |next| ==> next[i] == GAP_BLOCK))
  {
  }

  lemma StepPlainText(ev: ProxyEvent, blocks: seq<Block>, i: nat)
    requires FoldStep(ev, blocks).Some? && !IsStart(ev, i) && i < |blocks| && !blocks[i].ToolBlock?
    ensures i < |FoldStep(ev, blocks).value|
    ensures FoldStep(ev, blocks).value[i].text == blocks[i].text + if IsDelta(ev, i) then ev.delta else ""
  {
    assert blocks[i].text + "" == blocks[i].text;
  }

  lemma StepToolText(ev: ProxyEvent, blocks: seq<Block>, i: nat)
    requires FoldStep(ev, blocks).Some? && !IsStart(ev, i) && i < |blocks| && blocks[i].ToolBlock?
    ensures i < |FoldStep(ev, blocks).value|
    ensures var next := FoldStep(ev, blocks).value[i];
            && next.ToolBlock? && (next.isOpen <==> IsDelta(ev, i) || (blocks[i].isOpen && !Restarts(ev, i, true)))
            && (IsDelta(ev, i) ==> next.text == (if blocks[i].isOpen then blocks[i].text else "") + ev.delta)
            && (!IsDelta(ev, i) ==> next.text == blocks[i].text)
  {
    if IsDelta(ev, i) {
      assert "" + ev.delta == ev.delta;
    }
  }

  /** Block `i` holds what it received. */
  predicate HoldsReceived(blocks: seq<Block>, es: seq<ProxyEvent>, i: nat) {
    && (i < |blocks| && !blocks[i].ToolBlock? ==> blocks[i].text == Received(es, i, false))
    && (i < |blocks| && blocks[i].ToolBlock? ==>
          (if blocks[i].isOpen then blocks[i].text else "") == Received(es, i, true))
    && (i >= |blocks| ==> Received(es, i, false) == "")
  }

  lemma HoldsReceivedStep(blocks: seq<Block>, es: seq<ProxyEvent>, ev: ProxyEvent, i: nat)
    requires HoldsReceived(blocks, es, i) && FoldStep(ev, blocks).Some?
    ensures HoldsReceived(FoldStep(ev, blocks).value, es + [ev], i)
  {
    hide Received, FoldStep;
    ReceivedStep(es, ev, i, false);
    ReceivedStep(es, ev, i, true);
    StepText(ev, blocks, i);
    if !IsStart(ev, i) && i < |blocks| {
      if blocks[i].ToolBlock? {
        StepToolText(ev, blocks, i);
      } else {
        StepPlainText(ev, blocks, i);
      }
    }
    assert Received(es, i, false) + "" == Received(es, i, false);
    assert Received(es, i, true) + "" == Received(es, i, true);
  }

  /** Over every accepted sequence a text or thinking block is the
      concatenation of its deltas since its last start, and an open tool call
      that of its deltas since its last start or end; a block that was never
      started has received nothing. */
  lemma {:induction false} BlocksAreTheirDeltas(es: seq<ProxyEvent>, i: nat)
    requires FoldAll(es).Some?
    ensures HoldsReceived(FoldAll(es).value, es, i)
  {
    if es == [] {
      assert es[LastRestart(es, i, false)..] == [];
    } else {
      hide HoldsReceived, FoldStep;
      var n := |es| - 1;
      BlocksAreTheirDeltas(es[..n], i);
      assert es == es[..n] + [es[n]];
      HoldsReceivedStep(FoldAll(es[..n]).value, es[..n], es[n], i);
    }
  }

  /** No event of `later` starts block `i` again or adds to it. */
  predicate LeavesAlone(later: seq<ProxyEvent>, i: nat) {
    forall j :: 0 <= j < |later| ==> !IsStart(later[j], i) && !IsDelta(later[j], i)
  }

  lemma {:induction false} EndedCallKeepsText(es: seq<ProxyEvent>, i: nat, later: seq<ProxyEvent>)
    requires FoldAll(es).Some? && i < |FoldAll(es).value| && FoldAll(es).value[i].ToolBlock?
    requires LeavesAlone(later, i) && FoldAll(es + [ToolcallEnd(i)] + later).Some?
    ensures var blocks := FoldAll(es + [ToolcallEnd(i)] + later).value;
            i < |blocks| && blocks[i].ToolBlock? && !blocks[i].isOpen && blocks[i].text == FoldAll(es).value[i].text
    decreases |later|
  {
    hide FoldStep;
    var all := es + [ToolcallEnd(i)] + later;
    if later == [] {
      assert all[..|all| - 1] == es;
      StepToolText(ToolcallEnd(i), FoldAll(es).value, i);
    } else {
      var n := |later| - 1;
      assert all[..|all| - 1] == es + [ToolcallEnd(i)] + later[..n];
      EndedCallKeepsText(es, i, later[..n]);
      StepToolText(later[n], FoldAll(all[..|all| - 1]).value, i);
    }
  }

  /** From its end on, until it is started again or added to, a tool call shows
      the parse of all its deltas since its last start or end. */
  lemma EndedCallIsItsDeltas(es: seq<ProxyEvent>, i: nat, later: seq<ProxyEvent>)
    requires FoldAll(es).Some? && i < |FoldAll(es).value| && FoldAll(es).value[i].ToolBlock?
             && FoldAll(es).value[i].isOpen
    requires LeavesAlone(later, i) && ProcessAll(es + [ToolcallEnd(i)] + later).Some?
    ensures var st := ProcessAll(es + [ToolcallEnd(i)] + later).value;
            && i < |st.message.content| && st.message.content[i].ToolCall?
            && st.message.content[i].arguments == ParseStreaming(Received(es, i, true))
  {
    hide FoldAll, ProcessAll, ParseStreaming, Received;
    RunRefines(es + [ToolcallEnd(i)] + later);
    EndedCallKeepsText(es, i, later);
    BlocksAreTheirDeltas(es, i);
  }
}
