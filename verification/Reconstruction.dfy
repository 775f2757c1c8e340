/** `process_proxy_event` and `settle_partial_tool_calls`: a full assistant
    message rebuilt in place from proxy deltas. */
module Reconstruction {
  import opened JsonText
  import opened JsonGrammar
  import opened StreamingParse
  import opened Accumulator

  datatype Usage = Usage(input: nat, output: nat, cacheRead: nat, cacheWrite: nat, totalTokens: nat)

  datatype StopReason = Stopped | LengthLimit | ToolUse | Failed | Aborted

  datatype Content =
    | Text(text: string, textSignature: Option<string>)
    | Thinking(thinking: string, thinkingSignature: Option<string>)
    | ToolCall(id: string, name: string, arguments: Json)

  /** The partial message; the fields fixed at creation are left out. */
  datatype Message = Message(content: seq<Content>, usage: Usage, stopReason: StopReason, errorMessage: Option<string>)

  datatype DoneReason = DoneStop | DoneLength | DoneToolUse

  datatype ErrorReason = ErrorAborted | ErrorFailed

  datatype ProxyEvent =
    | Start
    | TextStart(index: nat)
    | TextDelta(index: nat, delta: string)
    | TextEnd(index: nat, contentSignature: Option<string>)
    | ThinkingStart(index: nat)
    | ThinkingDelta(index: nat, delta: string)
    | ThinkingEnd(index: nat, contentSignature: Option<string>)
    | ToolcallStart(index: nat, id: string, toolName: string)
    | ToolcallDelta(index: nat, delta: string)
    | ToolcallEnd(index: nat)
    | Done(doneReason: DoneReason, usage: Usage)
    | Error(errorReason: ErrorReason, errorMessage: Option<string>, usage: Usage)

  /** The event handed to the consumer: which proxy event it mirrors, the
      finished block for the end events, and the message as it then stands. */
  datatype AssistantEvent = AssistantEvent(source: ProxyEvent, finished: Option<Content>, message: Message)

  datatype Outcome = Emitted(event: AssistantEvent) | Silent | Rejected

  /** The value of the reconstruction state. */
  datatype Recon = Recon(message: Message, accs: map<nat, State>)

  const GAP := Text("", None)

  /** `ensure_content` and the assignment that always follows it. */
  function Placed(content: seq<Content>, index: nat, c: Content): (r: seq<Content>)
    ensures |r| == if index < |content| then |content| else index + 1
    ensures r[index] == c
    ensures forall i :: 0 <= i < |r| && i != index ==> r[i] == if i < |content| then content[i] else GAP
  {
    if index < |content| then content[index := c]
    else content + seq(index - |content|, _ => GAP) + [c]
  }

  function StopOf(r: DoneReason): StopReason {
    match r
    case DoneStop => Stopped
    case DoneLength => LengthLimit
    case DoneToolUse => ToolUse
  }

  function FailureOf(r: ErrorReason): StopReason {
    if r == ErrorAborted then Aborted else Failed
  }

  function WithArguments(c: Content, parsed: Option<Json>): Content {
    if c.ToolCall? then c.(arguments := Updated(c.arguments, parsed)) else c
  }

  /** The accumulators in `keys` flushed into their tool calls, where the
      block still is one. */
  function SettledOn(st: Recon, keys: set<nat>): (r: Recon)
    ensures |r.message.content| == |st.message.content|
    ensures r.accs.Keys == st.accs.Keys
  {
    var content := st.message.content;
    Recon(st.message.(content := seq(|content|, i requires 0 <= i < |content| =>
                                       if i in keys && i in st.accs then
                                         WithArguments(content[i], st.accs[i].Flushed().1)
                                       else content[i])),
          map k | k in st.accs :: if k in keys then st.accs[k].Flushed().0 else st.accs[k])
  }

  function Settled(st: Recon): Recon {
    SettledOn(st, st.accs.Keys)
  }

  lemma SettleOneMore(st: Recon, keys: set<nat>, key: nat)
    requires key in st.accs && key !in keys
    ensures SettledOn(SettledOn(st, keys), {key}) == SettledOn(st, keys + {key})
  {
    hide ParseStreaming, Utf16Length, WithArguments;
    var a, b := SettledOn(SettledOn(st, keys), {key}), SettledOn(st, keys + {key});
    assert a.message.content == b.message.content;
    assert a.accs == b.accs;
  }

  lemma SettleOne(st: Recon, key: nat)
    requires key in st.accs
    ensures var (acc, parsed) := st.accs[key].Flushed();
            var content := st.message.content;
            SettledOn(st, {key}) == Recon(st.message.(content :=
              if parsed.Some? && key < |content| then content[key := WithArguments(content[key], parsed)]
              else content), st.accs[key := acc])
  {
    hide ParseStreaming, Utf16Length;
    var (acc, parsed) := st.accs[key].Flushed();
    var content := st.message.content;
    var r := SettledOn(st, {key});
    if parsed.Some? && key < |content| {
      assert r.message.content == content[key := WithArguments(content[key], parsed)];
    } else {
      assert r.message.content == content;
    }
    assert r.accs == st.accs[key := acc];
  }

  lemma SettleNone(st: Recon)
    ensures SettledOn(st, {}) == st
  {
    assert SettledOn(st, {}).message.content == st.message.content;
    assert SettledOn(st, {}).accs == st.accs;
  }

  function ToolStarted(st: Recon, i: nat, id: string, name: string): Recon {
    var m := st.message;
    Recon(m.(content := Placed(m.content, i, ToolCall(id, name, EMPTY_OBJECT))), st.accs[i := EMPTY])
  }

  function ToolAppended(st: Recon, i: nat, d: string): Recon
    requires i < |st.message.content| && st.message.content[i].ToolCall?
  {
    var (acc, parsed) := (if i in st.accs then st.accs[i] else EMPTY).Appended(d);
    PutBlock(st, i, WithArguments(st.message.content[i], parsed)).(accs := st.accs[i := acc])
  }

  function ToolEnded(st: Recon, i: nat): (r: Recon)
    requires i < |st.message.content| && st.message.content[i].ToolCall?
    ensures |r.message.content| == |st.message.content|
  {
    var parsed := if i in st.accs then st.accs[i].Flushed().1 else None;
    PutBlock(st, i, WithArguments(st.message.content[i], parsed)).(accs := st.accs - {i})
  }

  /** One proxy event. */
  function Process(ev: ProxyEvent, st: Recon): (Recon, Outcome) {
    var m := st.message;
    match ev
    case Start => (st, Emitted(AssistantEvent(ev, None, m)))
    case TextStart(i) => Emit(ev, None, st.(message := m.(content := Placed(m.content, i, GAP))))
    case TextDelta(i, d) =>
      if i < |m.content| && m.content[i].Text? then
        Emit(ev, None, PutBlock(st, i, m.content[i].(text := m.content[i].text + d)))
      else (st, Rejected)
    case TextEnd(i, sig) =>
      if i < |m.content| && m.content[i].Text? then
        var c := m.content[i].(textSignature := sig);
        Emit(ev, Some(c), PutBlock(st, i, c))
      else (st, Rejected)
    case ThinkingStart(i) => Emit(ev, None, st.(message := m.(content := Placed(m.content, i, Thinking("", None)))))
    case ThinkingDelta(i, d) =>
      if i < |m.content| && m.content[i].Thinking? then
        Emit(ev, None, PutBlock(st, i, m.content[i].(thinking := m.content[i].thinking + d)))
      else (st, Rejected)
    case ThinkingEnd(i, sig) =>
      if i < |m.content| && m.content[i].Thinking? then
        Emit(ev, None, PutBlock(st, i, m.content[i].(thinkingSignature := sig)))
      else (st, Rejected)
    case ToolcallStart(i, id, name) =>
      Emit(ev, None, ToolStarted(st, i, id, name))
    case ToolcallDelta(i, d) =>
      if i < |m.content| && m.content[i].ToolCall? then
        Emit(ev, None, ToolAppended(st, i, d))
      else (st, Rejected)
    case ToolcallEnd(i) =>
      if i < |m.content| && m.content[i].ToolCall? then
        var ended := ToolEnded(st, i);
        Emit(ev, Some(ended.message.content[i]), ended)
      else (st, Silent)
    case Done(reason, usage) =>
      Emit(ev, None, st.(message := m.(stopReason := StopOf(reason), usage := usage)))
    case Error(reason, text, usage) =>
      var s := Settled(st);
      Emit(ev, None, s.(message := s.message.(stopReason := FailureOf(reason), errorMessage := text, usage := usage)))
  }

  function Emit(ev: ProxyEvent, finished: Option<Content>, st: Recon): (Recon, Outcome) {
    (st, Emitted(AssistantEvent(ev, finished, st.message)))
  }

  function PutBlock(st: Recon, i: nat, c: Content): Recon
    requires i < |st.message.content|
  {
    st.(message := st.message.(content := st.message.content[i := c]))
  }

  // ---------------------------------------------------------------------
  // In place
  // ---------------------------------------------------------------------

  class ProxyReconstruction {
    var partial: Message
    var partialJson: map<nat, StreamingJsonAccumulator>

    ghost predicate Valid()
      reads this, partialJson.Values
    {
      && (forall k :: k in partialJson ==> partialJson[k].Valid())
      && (forall j, k :: j in partialJson && k in partialJson && j != k ==> partialJson[j] != partialJson[k])
    }

    ghost function View(): Recon
      reads this, partialJson.Values
    {
      Recon(partial, map k | k in partialJson :: partialJson[k].View())
    }

    constructor ()
      ensures Valid() && fresh(partialJson.Values)
      ensures View() == Recon(Message([], Usage(0, 0, 0, 0, 0), Stopped, None), map[])
    {
      partial := Message([], Usage(0, 0, 0, 0, 0), Stopped, None);
      partialJson := map[];
    }

    /** `insert(i, default())` */
    method InsertAccumulator(i: nat)
      requires Valid()
      modifies this
      ensures Valid() && partial == old(partial) && i in partialJson
      ensures fresh(partialJson.Values - old(partialJson.Values))
      ensures View().accs == old(View()).accs[i := EMPTY]
    {
      hide ParseStreaming, Utf16Length;
      ghost var was := View().accs;
      var acc := new StreamingJsonAccumulator();
      assert View().accs == was;
      partialJson := partialJson[i := acc];
    }

    method StartToolCall(i: nat, id: string, name: string)
      requires Valid()
      modifies this
      ensures Valid() && fresh(partialJson.Values - old(partialJson.Values))
      ensures View() == ToolStarted(old(View()), i, id, name)
    {
      hide ParseStreaming, Placed;
      partial := partial.(content := Placed(partial.content, i, ToolCall(id, name, EMPTY_OBJECT)));
      InsertAccumulator(i);
    }

    /** `entry(i).or_default()` */
    method OpenAccumulator(i: nat)
      requires Valid()
      modifies this
      ensures Valid() && partial == old(partial) && i in partialJson
      ensures fresh(partialJson.Values - old(partialJson.Values))
      ensures View().accs == if i in old(View()).accs then old(View()).accs else old(View()).accs[i := EMPTY]
    {
      if i !in partialJson {
        InsertAccumulator(i);
      }
    }

    method AppendToolCall(i: nat, delta: string)
      requires Valid() && i < |partial.content| && partial.content[i].ToolCall?
      modifies this, partialJson.Values
      ensures Valid() && fresh(partialJson.Values - old(partialJson.Values))
      ensures View() == ToolAppended(old(View()), i, delta)
    {
      hide ParseStreaming, Throttled, Utf16Length, WithArguments;
      OpenAccumulator(i);
      ghost var before := View();
      var parsed := AppendTo(i, delta);
      assert before.accs[i := View().accs[i]] == old(View()).accs[i := View().accs[i]];
      PutArguments(i, parsed);
    }

    /** The fresh parse, if any, becomes the tool call's arguments. */
    method PutArguments(i: nat, parsed: Option<Json>)
      requires Valid() && i < |partial.content| && partial.content[i].ToolCall?
      modifies this`partial
      ensures Valid()
      ensures View() == PutBlock(old(View()), i, WithArguments(old(View()).message.content[i], parsed))
    {
      hide WithArguments;
      partial := partial.(content := partial.content[i := WithArguments(partial.content[i], parsed)]);
      assert View().accs == old(View()).accs;
    }

    method AppendTo(i: nat, delta: string) returns (parsed: Option<Json>)
      requires Valid() && i in partialJson
      modifies partialJson[i]
      ensures Valid() && View().message == old(View()).message
      ensures View().accs == old(View()).accs[i := old(View()).accs[i].Appended(delta).0]
      ensures parsed == old(View()).accs[i].Appended(delta).1
    {
      hide ParseStreaming, Throttled, Utf16Length;
      parsed := partialJson[i].Append(delta);
    }

    method EndToolCall(i: nat) returns (finished: Content)
      requires Valid() && i < |partial.content| && partial.content[i].ToolCall?
      modifies this, partialJson.Values
      ensures Valid() && partialJson.Values <= old(partialJson.Values)
      ensures View() == ToolEnded(old(View()), i)
      ensures finished == partial.content[i]
    {
      hide ParseStreaming, Utf16Length;
      var parsed: Option<Json> := None;
      ghost var before := View();
      if i in partialJson {
        parsed := partialJson[i].Flush();
        partialJson := partialJson - {i};
      }
      partial := partial.(content := partial.content[i := WithArguments(partial.content[i], parsed)]);
      assert View().accs == before.accs - {i};
      finished := partial.content[i];
    }

    method SettleKey(key: nat)
      requires Valid() && key in partialJson
      modifies this`partial, partialJson[key]
      ensures Valid() && View() == SettledOn(old(View()), {key})
    {
      hide ParseStreaming, Utf16Length, SettledOn;
      SettleOne(View(), key);
      var parsed := partialJson[key].Flush();
      if parsed.Some? && key < |partial.content| {
        partial := partial.(content := partial.content[key := WithArguments(partial.content[key], parsed)]);
      }
      assert View().accs == old(View()).accs[key := old(View()).accs[key].Flushed().0];
    }

    /** Flush every open accumulator into its tool call. */
    method SettlePartialToolCalls()
      requires Valid()
      modifies this`partial, partialJson.Values
      ensures Valid()
      ensures View() == Settled(old(View()))
    {
      hide SettledOn;
      ghost var start := View();
      SettleNone(start);
      var todo := partialJson.Keys;
      assert partialJson.Keys - todo == {};
      while todo != {}
        invariant todo <= partialJson.Keys == start.accs.Keys && Valid()
        invariant View() == SettledOn(start, partialJson.Keys - todo)
        decreases todo
      {
        var key :| key in todo;
        SettleOneMore(start, partialJson.Keys - todo, key);
        assert partialJson.Keys - todo + {key} == partialJson.Keys - (todo - {key});
        SettleKey(key);
        todo := todo - {key};
      }
      assert partialJson.Keys - todo == start.accs.Keys;
    }

    method Fail(reason: ErrorReason, text: Option<string>, usage: Usage)
      requires Valid()
      modifies this`partial, partialJson.Values
      ensures Valid()
      ensures var s := Settled(old(View()));
              View() == s.(message := s.message.(stopReason := FailureOf(reason), errorMessage := text, usage := usage))
    {
      hide Settled;
      SettlePartialToolCalls();
      ghost var accs := View().accs;
      partial := partial.(stopReason := FailureOf(reason), errorMessage := text, usage := usage);
      assert View().accs == accs;
    }

    /** The events that touch no accumulator. */
    method ProcessPlainEvent(ev: ProxyEvent) returns (out: Outcome)
      requires Valid() && !ev.ToolcallStart? && !ev.ToolcallDelta? && !ev.ToolcallEnd? && !ev.Error?
      modifies this`partial
      ensures (Recon(partial, map[]), out) == Process(ev, Recon(old(partial), map[]))
      ensures Valid() && View().accs == old(View()).accs
    {
      var content := partial.content;
      var finished: Option<Content> := None;
      match ev {
        case Start =>
        case TextStart(i) =>
          partial := partial.(content := Placed(content, i, GAP));
        case TextDelta(i, delta) =>
          if !(i < |content| && content[i].Text?) { return Rejected; }
          partial := partial.(content := content[i := content[i].(text := content[i].text + delta)]);
        case TextEnd(i, sig) =>
          if !(i < |content| && content[i].Text?) { return Rejected; }
          partial := partial.(content := content[i := content[i].(textSignature := sig)]);
          finished := Some(partial.content[i]);
        case ThinkingStart(i) =>
          partial := partial.(content := Placed(content, i, Thinking("", None)));
        case ThinkingDelta(i, delta) =>
          if !(i < |content| && content[i].Thinking?) { return Rejected; }
          partial := partial.(content := content[i := content[i].(thinking := content[i].thinking + delta)]);
        case ThinkingEnd(i, sig) =>
          if !(i < |content| && content[i].Thinking?) { return Rejected; }
          partial := partial.(content := content[i := content[i].(thinkingSignature := sig)]);
        case Done(reason, usage) =>
          partial := partial.(stopReason := StopOf(reason), usage := usage);
      }
      out := Emitted(AssistantEvent(ev, finished, partial));
    }

    /** One proxy event; `Rejected` is the error return. */
    method ProcessEvent(ev: ProxyEvent) returns (out: Outcome)
      requires Valid()
      modifies this, partialJson.Values
      ensures Valid() && fresh(partialJson.Values - old(partialJson.Values))
      ensures (View(), out) == Process(ev, old(View()))
    {
      hide ToolStarted, ToolAppended, ToolEnded, Settled;
      var finished: Option<Content> := None;
      match ev {
        case ToolcallStart(i, id, name) =>
          StartToolCall(i, id, name);
        case ToolcallDelta(i, delta) =>
          if !(i < |partial.content| && partial.content[i].ToolCall?) { return Rejected; }
          AppendToolCall(i, delta);
        case ToolcallEnd(i) =>
          if !(i < |partial.content| && partial.content[i].ToolCall?) { return Silent; }
          var c := EndToolCall(i);
          finished := Some(c);
        case Error(reason, text, usage) =>
          Fail(reason, text, usage);
        case _ =>
          PlainEventKeepsAccumulators(ev, View());
          hide Process;
          out := ProcessPlainEvent(ev);
          return;
      }
      out := Emitted(AssistantEvent(ev, finished, partial));
    }
  }

  lemma PlainEventKeepsAccumulators(ev: ProxyEvent, st: Recon)
    requires !ev.ToolcallStart? && !ev.ToolcallDelta? && !ev.ToolcallEnd? && !ev.Error?
    ensures var bare := Process(ev, Recon(st.message, map[]));
            Process(ev, st) == (Recon(bare.0.message, st.accs), bare.1)
  {
  }
}
