/** `MutableAgentState` and the reduction of loop events into it. */
module AgentState {
  import opened JsonText
  import opened AgentTypes

  datatype AgentEvent =
    | MessageStart(message: AgentMessage)
    | MessageUpdate(message: AgentMessage)
    | MessageEnd(message: AgentMessage)
    | ToolExecutionStart(id: string)
    | ToolExecutionEnd(id: string)
    | TurnEnd(message: AgentMessage)
    | AgentEnd
    | OtherEvent

  datatype Shared = Shared(
    messages: seq<AgentMessage>,
    isStreaming: bool,
    streaming: Option<AgentMessage>,
    pending: set<string>,
    errorMessage: Option<string>,
    model: string,
    level: ThinkingLevel)

  /** The state half of `process_events`; it happens before any listener runs,
      so a failing listener does not undo it. */
  function Reduce(s: Shared, ev: AgentEvent): Shared {
    match ev
    case MessageStart(m) => s.(streaming := Some(m))
    case MessageUpdate(m) => s.(streaming := Some(m))
    case MessageEnd(m) => s.(streaming := None, messages := s.messages + [m])
    case ToolExecutionStart(id) => s.(pending := s.pending + {id})
    case ToolExecutionEnd(id) => s.(pending := s.pending - {id})
    case TurnEnd(m) =>
      if m.role == Assistant && m.errorMessage.Some? then s.(errorMessage := m.errorMessage) else s
    case AgentEnd => s.(streaming := None)
    case OtherEvent => s
  }

  function Begun(s: Shared): Shared {
    s.(isStreaming := true, streaming := None, errorMessage := None)
  }

  function Ended(s: Shared): Shared {
    s.(isStreaming := false, streaming := None, pending := {})
  }

  function WasReset(s: Shared): Shared {
    s.(messages := [], isStreaming := false, streaming := None, pending := {}, errorMessage := None)
  }

  class MutableAgentState {
    var messages: seq<AgentMessage>
    var isStreaming: bool
    var streaming: Option<AgentMessage>
    var pending: set<string>
    var errorMessage: Option<string>
    var model: string
    var level: ThinkingLevel

    ghost function View(): Shared
      reads this
    {
      Shared(messages, isStreaming, streaming, pending, errorMessage, model, level)
    }

    constructor (messages: seq<AgentMessage>, model: string, level: ThinkingLevel)
      ensures View() == Shared(messages, false, None, {}, None, model, level)
    {
      this.messages, this.model, this.level := messages, model, level;
      isStreaming, streaming, pending, errorMessage := false, None, {}, None;
    }

    method ReduceEvent(event: AgentEvent)
      modifies this
      ensures View() == Reduce(old(View()), event)
    {
      match event {
        case MessageStart(m) => streaming := Some(m);
        case MessageUpdate(m) => streaming := Some(m);
        case MessageEnd(m) =>
          streaming := None;
          messages := messages + [m];
        case ToolExecutionStart(id) => pending := pending + {id};
        case ToolExecutionEnd(id) => pending := pending - {id};
        case TurnEnd(m) =>
          if m.role == Assistant && m.errorMessage.Some? {
            errorMessage := m.errorMessage;
          }
        case AgentEnd => streaming := None;
        case OtherEvent =>
      }
    }

    method BeginRun()
      modifies this
      ensures messages == old(messages) && pending == old(pending)
      ensures isStreaming && streaming.None? && errorMessage.None?
      ensures View() == Begun(old(View()))
    {
      isStreaming, streaming, errorMessage := true, None, None;
    }

    method EndRun()
      modifies this
      ensures !isStreaming && streaming.None? && pending == {} && messages == old(messages)
      ensures View() == Ended(old(View()))
    {
      isStreaming, streaming, pending := false, None, {};
    }

    /** The state of one run from its start to its release, for whatever the
        loop emits in between. */
    method ObserveRun(events: seq<AgentEvent>)
      requires pending == {}
      modifies this
      ensures messages == old(messages) + EndedMessages(events)
      ensures !isStreaming && streaming.None? && pending == {}
      ensures errorMessage == LastTurnError(events) && model == old(model) && level == old(level)
    {
      hide Reduce, EndedMessages, LastTurnError, StartedNotEnded;
      BeginRun();
      ghost var begun := View();
      for i := 0 to |events|
        invariant View() == ReduceAll(begun, events[..i])
      {
        assert events[..i + 1][..i] == events[..i];
        ReduceEvent(events[i]);
      }
      assert events[..|events|] == events;
      TranscriptOfEvents(begun, events);
      ErrorOfEvents(begun, events);
      EndRun();
    }

    method Reset()
      modifies this
      ensures messages == [] && !isStreaming && streaming.None? && pending == {} && errorMessage.None?
      ensures model == old(model) && level == old(level)
      ensures View() == WasReset(old(View()))
    {
      messages, isStreaming, streaming, pending, errorMessage := [], false, None, {}, None;
    }
  }

  // ---------------------------------------------------------------------
  // Whole event sequences
  // ---------------------------------------------------------------------

  function ReduceAll(s: Shared, events: seq<AgentEvent>): Shared {
    if events == [] then s else Reduce(ReduceAll(s, events[..|events| - 1]), events[|events| - 1])
  }

  /** The messages that ended, in order. */
  function EndedMessages(events: seq<AgentEvent>): seq<AgentMessage> {
    if events == [] then []
    else
      var last := events[|events| - 1];
      EndedMessages(events[..|events| - 1]) + if last.MessageEnd? then [last.message] else []
  }

  predicate Concerns(ev: AgentEvent, id: string) {
    (ev.ToolExecutionStart? || ev.ToolExecutionEnd?) && ev.id == id
  }

  /** The call was started, and nothing about it followed the start. */
  ghost predicate StartedNotEnded(events: seq<AgentEvent>, id: string) {
    exists k :: 0 <= k < |events| && events[k] == ToolExecutionStart(id)
                && forall j :: k < j < |events| ==> !Concerns(events[j], id)
  }

  lemma StartedNotEndedStep(events: seq<AgentEvent>, id: string)
    requires events != []
    ensures var n := |events| - 1;
            StartedNotEnded(events, id) <==>
            events[n] == ToolExecutionStart(id) || (!Concerns(events[n], id) && StartedNotEnded(events[..n], id))
  {
    var n := |events| - 1;
    if StartedNotEnded(events, id) {
      var k :| 0 <= k < |events| && events[k] == ToolExecutionStart(id)
               && forall j :: k < j < |events| ==> !Concerns(events[j], id);
      if k < n {
        assert events[..n][k] == events[k];
      }
    }
    if !Concerns(events[n], id) && StartedNotEnded(events[..n], id) {
      var k :| 0 <= k < n && events[..n][k] == ToolExecutionStart(id)
               && forall j :: k < j < n ==> !Concerns(events[..n][j], id);
      assert forall j :: k < j < n ==> events[..n][j] == events[j];
    }
  }

  /** Over every event sequence of a run that starts with no pending call: the
      transcript is what it was plus the ended messages in order, and the
      pending calls are those started and not ended. */
  lemma {:induction false} TranscriptOfEvents(s: Shared, events: seq<AgentEvent>)
    requires s.pending == {}
    ensures ReduceAll(s, events).messages == s.messages + EndedMessages(events)
    ensures forall id :: id in ReduceAll(s, events).pending <==> StartedNotEnded(events, id)
  {
    hide StartedNotEnded;
    if events == [] {
      NothingStarted();
    } else {
      var n := |events| - 1;
      TranscriptOfEvents(s, events[..n]);
      forall id
        ensures id in ReduceAll(s, events).pending <==> StartedNotEnded(events, id)
      {
        StartedNotEndedStep(events, id);
      }
    }
  }

  lemma NothingStarted()
    ensures forall id :: !StartedNotEnded([], id)
  {
  }

  /** The error of the last assistant turn that ended with one. */
  function LastTurnError(events: seq<AgentEvent>): Option<string> {
    if events == [] then None
    else
      var last := events[|events| - 1];
      if last.TurnEnd? && last.message.role == Assistant && last.message.errorMessage.Some? then
        last.message.errorMessage
      else LastTurnError(events[..|events| - 1])
  }

  /** The message being streamed: the last one started or updated, if nothing
      ended since. */
  function ShownMessage(events: seq<AgentEvent>): Option<AgentMessage> {
    if events == [] then None
    else match events[|events| - 1]
      case MessageStart(m) => Some(m)
      case MessageUpdate(m) => Some(m)
      case MessageEnd(_) => None
      case AgentEnd => None
      case _ => ShownMessage(events[..|events| - 1])
  }

  /** At every point of a run, whatever was emitted so far: the state says that
      it streams, shows the message being streamed, and has the error of this
      run alone; after the run it says neither. */
  lemma RunShows(s: Shared, events: seq<AgentEvent>)
    ensures var now := ReduceAll(Begun(s), events);
            && now.isStreaming && now.streaming == ShownMessage(events) && now.errorMessage == LastTurnError(events)
            && !Ended(now).isStreaming && Ended(now).streaming.None? && Ended(now).errorMessage == now.errorMessage
  {
    ErrorOfEvents(Begun(s), events);
    StreamOfEvents(Begun(s), events);
  }

  lemma {:induction false} StreamOfEvents(s: Shared, events: seq<AgentEvent>)
    requires s.streaming.None?
    ensures ReduceAll(s, events).isStreaming == s.isStreaming && ReduceAll(s, events).streaming == ShownMessage(events)
  {
    if events != [] {
      StreamOfEvents(s, events[..|events| - 1]);
    }
  }

  lemma {:induction false} ErrorOfEvents(s: Shared, events: seq<AgentEvent>)
    requires s.errorMessage.None?
    ensures ReduceAll(s, events).errorMessage == LastTurnError(events)
    ensures ReduceAll(s, events).model == s.model && ReduceAll(s, events).level == s.level
  {
    if events != [] {
      ErrorOfEvents(s, events[..|events| - 1]);
    }
  }
}
