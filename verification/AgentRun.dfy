/** The run lifecycle of the agent: any number of callers interleaving, each
    critical section one atomic step. */
module AgentRun {
  import opened JsonText
  import opened AgentTypes
  import opened PendingQueue
  import opened AgentState

  datatype Override = Override(model: string, level: ThinkingLevel)

  /** The slot of the active run: which run, its abort signal, and the model
      that served it when it started. */
  datatype ActiveRun = ActiveRun(run: nat, aborted: bool, model: string)

  datatype Request = Request(model: string, level: ThinkingLevel)

  datatype Call = Prompt | PromptUntilAccepted | Continue

  /** Why a continuation drains the queues first. */
  datatype Reason = NoMessages | AfterAssistant | AfterCustom

  datatype Outcome = Busy | NothingToContinue | Refusal | Ran(ok: bool)

  /** Where a caller, or the run it spawned, stands. */
  datatype Pc =
    | CheckBusy(call: Call)
    | ReadLast
    | DrainSteering(reason: Reason)
    | DrainFollowUp(reason: Reason)
    | ReadOverride
    | ReadModel
    | Registering(model: string)
    | Initialising
    | Starting
    | Configuring
    | Executing
    | Failing(error: string)
    | BuildingRow(aborted: bool, error: string)
    | SettingError(row: AgentMessage)
    | EmitStart(row: AgentMessage)
    | EmitEnd(row: AgentMessage)
    | EmitAgentEnd(row: AgentMessage)
    | Cleaning(ok: bool)
    | Releasing(ok: bool)
    | Settling(ok: bool)
    | Refusing
    | Finished(outcome: Outcome)

  /** A one-shot channel; only `prompt_until_accepted` has a start channel. */
  datatype Channel = NoChannel | Unsent | Sent | Dropped

  /** The caller of `prompt_until_accepted`. `Panicked` is its `expect`. */
  datatype Caller = NoCaller | AwaitStarted | AwaitRefusal | Accepted | RefusedErr | BusyErr | Panicked

  datatype Thread = Thread(
    pc: Pc,
    routed: Option<Override>,
    request: Option<Request>,
    started: Channel,
    failed: Channel,
    caller: Caller)

  /** A `wait_for_idle` call: the run it subscribed to, if any. */
  datatype Waiter = Watching(run: nat) | Idle(left: Option<nat>)

  datatype World = World(
    slot: Option<ActiveRun>,
    shared: Shared,
    routed: Option<Override>,
    steering: Queue,
    followUp: Queue,
    threads: map<nat, Thread>,
    waiters: map<nat, Waiter>,
    idle: map<nat, bool>,
    registered: set<nat>)

  datatype Action =
    | Begin(t: nat, call: Call)
    | Advance(t: nat, ok: bool, error: string)
    | Emit(t: nat, event: AgentEvent)
    | PollQueue(t: nat, steeringQueue: bool)
    | CallerStep(t: nat)
    | WaitForIdle(u: nat)
    | WaiterStep(u: nat)
    | Abort
    | ResetState
    | SetMessages(messages: seq<AgentMessage>)
    | SetModel(model: string, level: ThinkingLevel)
    | SetOverride(routed: Option<Override>)
    | QueueOp(steeringQueue: bool, op: Op)

  function Put(w: World, t: nat, th: Thread): World {
    w.(threads := w.threads[t := th])
  }

  /** Steps outside a run, seen by the thread. */
  function EarlyLocal(w: World, th: Thread): Thread {
    match th.pc
    case CheckBusy(call) =>
      if w.slot.Some? then th.(pc := Finished(Busy), caller := if th.caller == NoCaller then NoCaller else BusyErr)
      else th.(pc := if call == Continue then ReadLast else ReadOverride)
    case ReadLast => th.(pc := AfterLast(w.shared.messages))
    case DrainSteering(reason) =>
      th.(pc := if Drain(w.steering).1 != [] then ReadOverride else DrainFollowUp(reason))
    case DrainFollowUp(reason) =>
      th.(pc := if Drain(w.followUp).1 != [] || reason == AfterCustom then ReadOverride
          else Finished(NothingToContinue))
    case ReadOverride => th.(pc := ReadModel, routed := w.routed)
    case ReadModel => th.(pc := Registering(if th.routed.Some? then th.routed.value.model else w.shared.model))
    case Registering(model) =>
      if w.slot.Some? then th.(pc := Refusing, started := if th.started == Unsent then Dropped else th.started)
      else th.(pc := Initialising)
    case Refusing => th.(pc := Finished(Refusal), failed := Sent)
    case Settling(ok) => th.(pc := Finished(Ran(ok)), failed := if ok then Dropped else Sent)
    case _ => th
  }

  /** Whether `continue_run` drains the queues, by the role of the last
      message. */
  function AfterLast(messages: seq<AgentMessage>): Pc {
    if messages == [] then DrainSteering(NoMessages)
    else if messages[|messages| - 1].role == Assistant then DrainSteering(AfterAssistant)
    else if messages[|messages| - 1].role == Custom then DrainSteering(AfterCustom)
    else ReadOverride
  }

  /** Steps outside a run, seen by the shared state. */
  function EarlyShared(w: World, t: nat, pc: Pc): World {
    match pc
    case DrainSteering(_) => w.(steering := Drain(w.steering).0)
    case DrainFollowUp(_) => w.(followUp := Drain(w.followUp).0)
    case Registering(model) =>
      if w.slot.Some? then w
      else w.(slot := Some(ActiveRun(t, false, model)), idle := w.idle[t := false], registered := w.registered + {t})
    case _ => w
  }

  function AdvanceEarly(w: World, t: nat): World
    requires t in w.threads
  {
    Put(EarlyShared(w, t, w.threads[t].pc), t, EarlyLocal(w, w.threads[t]))
  }

  function FailureModel(w: World): string {
    if w.slot.Some? then w.slot.value.model
    else if w.routed.Some? then w.routed.value.model
    else w.shared.model
  }

  function FailureRow(model: string, aborted: bool, error: string): AgentMessage {
    AgentMessage(Assistant, "", Some(model), aborted, Some(error))
  }

  function Released(w: World): World {
    if w.slot.Some? then w.(slot := None, idle := w.idle[w.slot.value.run := true]) else w
  }

  /** Steps inside a run, seen by the thread. */
  function HeldLocal(w: World, th: Thread, ok: bool, error: string): Thread {
    match th.pc
    case Initialising => th.(pc := Starting)
    case Starting => th.(pc := Configuring, started := if th.started == Unsent then Sent else th.started)
    case Configuring => th.(pc := Executing, request := Some(RequestOf(w, th.routed)))
    case Executing => th.(pc := if ok then Cleaning(true) else Failing(error))
    case Failing(e) => th.(pc := BuildingRow(w.slot.Some? && w.slot.value.aborted, e))
    case BuildingRow(aborted, e) => th.(pc := SettingError(FailureRow(FailureModel(w), aborted, e)))
    case SettingError(row) => th.(pc := EmitStart(row))
    case EmitStart(row) => th.(pc := EmitEnd(row))
    case EmitEnd(row) => th.(pc := EmitAgentEnd(row))
    case EmitAgentEnd(row) => th.(pc := Cleaning(false))
    case Cleaning(result) => th.(pc := Releasing(result))
    case Releasing(result) => th.(pc := Settling(result))
    case _ => th
  }

  /** `loop_config`: the routed model and level, or the session's. */
  function RequestOf(w: World, routed: Option<Override>): Request {
    if routed.Some? then Request(routed.value.model, routed.value.level) else Request(w.shared.model, w.shared.level)
  }

  /** Steps inside a run, seen by the shared state. */
  function HeldShared(w: World, pc: Pc): World {
    match pc
    case Initialising => w.(shared := Begun(w.shared))
    case SettingError(row) => w.(shared := w.shared.(errorMessage := row.errorMessage))
    case EmitStart(row) => w.(shared := Reduce(w.shared, MessageStart(row)))
    case EmitEnd(row) => w.(shared := Reduce(w.shared, MessageEnd(row)))
    case EmitAgentEnd(row) => w.(shared := Reduce(w.shared, AgentEnd))
    case Cleaning(result) => w.(shared := Ended(w.shared))
    case Releasing(result) => Released(w)
    case _ => w
  }

  function AdvanceHeld(w: World, t: nat, ok: bool, error: string): World
    requires t in w.threads
  {
    Put(HeldShared(w, w.threads[t].pc), t, HeldLocal(w, w.threads[t], ok, error))
  }

  /** The caller of `prompt_until_accepted` awaits the start signal, then the
      refusal. */
  function CallerLocal(th: Thread): Thread {
    match th.caller
    case AwaitStarted =>
      if th.started == Sent then th.(caller := Accepted)
      else if th.started == Dropped then th.(caller := AwaitRefusal)
      else th
    case AwaitRefusal =>
      if th.failed == Sent then th.(caller := RefusedErr)
      else if th.failed == Dropped then th.(caller := Panicked)
      else th
    case _ => th
  }

  function CallerMoves(w: World, t: nat): World
    requires t in w.threads
  {
    Put(w, t, CallerLocal(w.threads[t]))
  }

  function WaiterMoves(w: World, u: nat): World
    requires u in w.waiters
  {
    match w.waiters[u]
    case Watching(run) =>
      var flag := run in w.idle && w.idle[run];
      var senderAlive := w.slot.Some? && w.slot.value.run == run;
      if flag || !senderAlive then w.(waiters := w.waiters[u := Idle(Some(run))]) else w
    case Idle(_) => w
  }

  function ApplyOp(q: Queue, op: Op): Queue {
    match op
    case DoEnqueue(b) => Enqueue(q, b)
    case DoDrain => q
    case DoRemove(p) => q.(batches := Retained(q.batches, p))
    case DoClear => q.(batches := [])
    case DoMode(m) => q.(mode := m)
  }

  function Step(w: World, a: Action): World {
    match a
    case Begin(t, call) =>
      if t in w.threads then w
      else
        Put(w, t, Thread(CheckBusy(call), None, None, if call == PromptUntilAccepted then Unsent else NoChannel, Unsent,
                         if call == PromptUntilAccepted then AwaitStarted else NoCaller))
    case Advance(t, ok, error) =>
      if t !in w.threads then w
      else if Holds(w.threads[t].pc) then AdvanceHeld(w, t, ok, error)
      else AdvanceEarly(w, t)
    case Emit(t, ev) =>
      if t in w.threads && w.threads[t].pc == Executing then w.(shared := Reduce(w.shared, ev)) else w
    case PollQueue(t, steering) =>
      if t in w.threads && w.threads[t].pc == Executing then
        if steering then w.(steering := Drain(w.steering).0) else w.(followUp := Drain(w.followUp).0)
      else w
    case CallerStep(t) => if t in w.threads then CallerMoves(w, t) else w
    case WaitForIdle(u) =>
      if u in w.waiters then w
      else w.(waiters := w.waiters[u := if w.slot.Some? then Watching(w.slot.value.run) else Idle(None)])
    case WaiterStep(u) => if u in w.waiters then WaiterMoves(w, u) else w
    case Abort => if w.slot.Some? then w.(slot := Some(w.slot.value.(aborted := true))) else w
    case ResetState => w.(shared := WasReset(w.shared))
    case SetMessages(ms) => w.(shared := w.shared.(messages := ms))
    case SetModel(m, l) => w.(shared := w.shared.(model := m, level := l))
    case SetOverride(o) => w.(routed := o)
    case QueueOp(steering, op) =>
      if steering then w.(steering := ApplyOp(w.steering, op)) else w.(followUp := ApplyOp(w.followUp, op))
  }

  function Run(w: World, actions: seq<Action>): World
    decreases actions
  {
    if actions == [] then w else Run(Step(w, actions[0]), actions[1..])
  }

  // ---------------------------------------------------------------------
  // The invariant
  // ---------------------------------------------------------------------

  /** The program points at which a thread owns the slot. */
  predicate Holds(pc: Pc) {
    pc.Initialising? || Active(pc) || pc.Releasing?
  }

  /** Between the two updates of `is_streaming`. */
  predicate Active(pc: Pc) {
    pc.Starting? || pc.Configuring? || pc.Executing? || pc.Failing? || pc.BuildingRow? || pc.SettingError?
    || pc.EmitStart? || pc.EmitEnd? || pc.EmitAgentEnd? || pc.Cleaning?
  }

  /** The program points reached only after taking the slot. */
  predicate WasRegistered(pc: Pc) {
    Holds(pc) || pc.Settling? || (pc.Finished? && pc.outcome.Ran?)
  }

  /** The slot belongs to exactly the thread that is inside its run. */
  predicate OneHolder(w: World) {
    && (w.slot.Some? ==> w.slot.value.run in w.threads && Holds(w.threads[w.slot.value.run].pc))
    && (forall t :: t in w.threads && Holds(w.threads[t].pc) ==> w.slot.Some? && w.slot.value.run == t)
  }

  /** Outside the active stretch of a run nothing streams and nothing is
      pending. */
  predicate Quiet(w: World) {
    (w.slot.Some? && w.slot.value.run in w.threads && Active(w.threads[w.slot.value.run].pc))
    || (!w.shared.isStreaming && w.shared.streaming.None? && w.shared.pending == {})
  }

  predicate Registration(w: World) {
    && (forall t :: t in w.threads ==> (t in w.registered <==> WasRegistered(w.threads[t].pc)))
    && (forall t :: t in w.registered ==> t in w.threads && t in w.idle)
    && (forall t :: t in w.idle ==> t in w.registered)
    && (forall r :: r in w.idle && w.idle[r] ==> w.slot.None? || w.slot.value.run != r)
    && (forall r :: r in w.idle && !w.idle[r] ==> w.slot.Some? && w.slot.value.run == r)
  }

  /** The start signal is sent only by a registered run and dropped only by a
      refusal, which the failure channel then carries; so the caller returns
      Ok only for a registered run, an error only for a refused or busy one,
      and never reaches its `expect`. */
  predicate Acceptance(th: Thread, registered: bool) {
    && (th.caller.NoCaller? <==> th.started.NoChannel?)
    && (th.started.Sent? ==> registered)
    && (th.started.Dropped? ==> !registered && (th.pc == Refusing || th.pc == Finished(Refusal)))
    && (th.failed.Dropped? ==> registered)
    && (th.caller.Accepted? ==> registered)
    && (th.caller.AwaitRefusal? || th.caller.RefusedErr? ==> th.started.Dropped?)
    && (th.caller.RefusedErr? ==> th.failed.Sent?)
    && (th.caller.BusyErr? ==> th.pc == Finished(Busy))
    && !th.caller.Panicked?
  }

  /** A run with a model override uses that one snapshot for its request and
      for its failure row ... */
  predicate Snapshot(th: Thread) {
    && (th.pc.Registering? && th.routed.Some? ==> th.pc.model == th.routed.value.model)
    && (th.request.Some? ==> WasRegistered(th.pc))
    && (th.request.Some? && th.routed.Some? ==>
        th.request.value == Request(th.routed.value.model, th.routed.value.level))
    && (RowOf(th.pc).Some? && th.routed.Some? ==> RowOf(th.pc).value.model == Some(th.routed.value.model))
  }

  /** ... and for the model recorded in the slot. */
  predicate OneSnapshot(w: World, t: nat)
    requires t in w.threads
  {
    var th := w.threads[t];
    Snapshot(th) &&
    (Holds(th.pc) && th.routed.Some? && w.slot.Some? ==> w.slot.value.model == th.routed.value.model)
  }

  function RowOf(pc: Pc): Option<AgentMessage> {
    match pc
    case SettingError(row) => Some(row)
    case EmitStart(row) => Some(row)
    case EmitEnd(row) => Some(row)
    case EmitAgentEnd(row) => Some(row)
    case _ => None
  }

  predicate ThreadOk(w: World, t: nat)
    requires t in w.threads
  {
    Acceptance(w.threads[t], t in w.registered) && OneSnapshot(w, t)
  }

  /** A waiter returns only after the run it subscribed to left the slot. */
  predicate WaiterOk(w: World, u: nat)
    requires u in w.waiters
  {
    match w.waiters[u]
    case Watching(run) => run in w.registered
    case Idle(run) => run.Some? ==> run.value in w.idle && w.idle[run.value]
  }

  predicate QueueOk(q: Queue) {
    NoneEmpty(q.batches)
  }

  predicate Inv(w: World) {
    && OneHolder(w) && Quiet(w) && Registration(w)
    && (forall t :: t in w.threads ==> ThreadOk(w, t))
    && (forall u :: u in w.waiters ==> WaiterOk(w, u))
    && QueueOk(w.steering) && QueueOk(w.followUp)
  }

  // ---------------------------------------------------------------------
  // Every step keeps it
  // ---------------------------------------------------------------------

  /** Only thread `t` moved, and the shared fields named here did not. */
  predicate OnlyMoved(w: World, v: World, t: nat) {
    && t in w.threads && v.threads.Keys == w.threads.Keys
    && (forall k :: k in w.threads && k != t ==> v.threads[k] == w.threads[k])
    && v.waiters == w.waiters
  }

  /** A step outside a run: it takes the free slot, or leaves the run
      bookkeeping alone. */
  predicate EarlyMove(w: World, v: World, t: nat) {
    && OnlyMoved(w, v, t) && v.shared == w.shared
    && var (pc, pc') := (w.threads[t].pc, v.threads[t].pc);
       if pc.Registering? && w.slot.None? then
         && pc' == Initialising && v.slot == Some(ActiveRun(t, false, pc.model))
         && v.idle == w.idle[t := false] && v.registered == w.registered + {t}
       else
         && v.slot == w.slot && v.idle == w.idle && v.registered == w.registered
         && !Holds(pc') && (WasRegistered(pc') <==> WasRegistered(pc))
  }

  /** A step inside a run: it releases the slot, or keeps it. */
  predicate HeldMove(w: World, v: World, t: nat) {
    && OnlyMoved(w, v, t) && v.registered == w.registered
    && var (pc, pc') := (w.threads[t].pc, v.threads[t].pc);
       if pc.Releasing? then
         pc' == Settling(pc.ok) && (w.slot, v.slot, v.idle) == (w.slot, Released(w).slot, Released(w).idle)
       else v.slot == w.slot && v.idle == w.idle && Holds(pc')
  }

  lemma EarlyIsEarlyMove(w: World, t: nat)
    requires t in w.threads && !Holds(w.threads[t].pc)
    ensures EarlyMove(w, AdvanceEarly(w, t), t)
  {
    EarlyLocalMoves(w, w.threads[t]);
    EarlySharedMoves(w, t, w.threads[t].pc);
    hide Drain, EarlyLocal, EarlyShared, Holds, WasRegistered;
  }

  lemma EarlyLocalMoves(w: World, th: Thread)
    requires !Holds(th.pc)
    ensures var pc := EarlyLocal(w, th).pc;
            if th.pc.Registering? && w.slot.None? then pc == Initialising
            else !Holds(pc) && (WasRegistered(pc) <==> WasRegistered(th.pc))
  {
    hide Drain;
  }

  lemma EarlySharedMoves(w: World, t: nat, pc: Pc)
    ensures var v := EarlyShared(w, t, pc);
            && v.threads == w.threads && v.waiters == w.waiters && v.shared == w.shared
            && if pc.Registering? && w.slot.None? then
                 v.slot == Some(ActiveRun(t, false, pc.model)) && v.idle == w.idle[t := false]
                 && v.registered == w.registered + {t}
               else v.slot == w.slot && v.idle == w.idle && v.registered == w.registered
  {
    hide Drain;
  }

  lemma HeldLocalMoves(w: World, th: Thread, ok: bool, error: string)
    requires Holds(th.pc)
    ensures var pc := HeldLocal(w, th, ok, error).pc;
            if th.pc.Releasing? then pc == Settling(th.pc.ok) else Holds(pc)
  {
    hide RequestOf, FailureRow, FailureModel;
  }

  lemma HeldSharedMoves(w: World, pc: Pc)
    ensures var v := HeldShared(w, pc);
            && v.threads == w.threads && v.waiters == w.waiters && v.registered == w.registered && v.routed == w.routed
            && v.steering == w.steering && v.followUp == w.followUp
            && (v.slot, v.idle) == if pc.Releasing? then (Released(w).slot, Released(w).idle) else (w.slot, w.idle)
  {
    hide Reduce, Begun, Ended;
  }

  lemma HeldIsHeldMove(w: World, t: nat, ok: bool, error: string)
    requires t in w.threads && Holds(w.threads[t].pc)
    ensures HeldMove(w, AdvanceHeld(w, t, ok, error), t)
  {
    HeldLocalMoves(w, w.threads[t], ok, error);
    HeldSharedMoves(w, w.threads[t].pc);
    hide HeldLocal, HeldShared, Released, Holds;
  }

  lemma EarlyMoveKeepsHolder(w: World, v: World, t: nat)
    requires OneHolder(w) && EarlyMove(w, v, t) && !Holds(w.threads[t].pc)
    ensures OneHolder(v)
  {
  }

  lemma HeldMoveKeepsHolder(w: World, v: World, t: nat)
    requires OneHolder(w) && HeldMove(w, v, t) && Holds(w.threads[t].pc)
    ensures OneHolder(v)
  {
  }

  lemma EarlyMoveKeepsRegistration(w: World, v: World, t: nat)
    requires OneHolder(w) && Registration(w) && EarlyMove(w, v, t) && !Holds(w.threads[t].pc)
    ensures Registration(v)
  {
    hide Holds, Active;
    assert WasRegistered(Initialising) && !(w.threads[t].pc.Registering? && WasRegistered(w.threads[t].pc)) by {
      RegisteringIsEarly(w.threads[t].pc);
    }
  }

  lemma RegisteringIsEarly(pc: Pc)
    ensures WasRegistered(Initialising) && (pc.Registering? ==> !WasRegistered(pc))
            && (pc.Settling? ==> WasRegistered(pc))
    ensures Holds(pc) ==> WasRegistered(pc)
  {
  }

  lemma HeldMoveKeepsRegistration(w: World, v: World, t: nat)
    requires OneHolder(w) && Registration(w) && HeldMove(w, v, t) && Holds(w.threads[t].pc)
    ensures Registration(v)
  {
    RegisteringIsEarly(w.threads[t].pc);
    RegisteringIsEarly(v.threads[t].pc);
    hide WasRegistered, Active;
  }

  lemma EarlyKeepsQuiet(w: World, t: nat)
    requires OneHolder(w) && Quiet(w) && t in w.threads && !Holds(w.threads[t].pc)
    ensures Quiet(AdvanceEarly(w, t))
  {
    EarlyIsEarlyMove(w, t);
    hide AdvanceEarly;
  }

  lemma HeldKeepsQuiet(w: World, t: nat, ok: bool, error: string)
    requires OneHolder(w) && Quiet(w) && t in w.threads && Holds(w.threads[t].pc)
    ensures Quiet(AdvanceHeld(w, t, ok, error))
  {
  }

  lemma EarlyLocalOk(w: World, th: Thread, registered: bool)
    requires !Holds(th.pc) && (registered <==> WasRegistered(th.pc))
    requires Acceptance(th, registered) && Snapshot(th)
    ensures var next := EarlyLocal(w, th);
            && Acceptance(next, registered || (th.pc.Registering? && w.slot.None?))
            && Snapshot(next)
  {
    hide Drain;
  }

  lemma HeldLocalOk(w: World, th: Thread, ok: bool, error: string)
    requires Holds(th.pc) && Acceptance(th, true) && Snapshot(th)
    requires w.slot.Some? && (th.routed.Some? ==> w.slot.value.model == th.routed.value.model)
    ensures var next := HeldLocal(w, th, ok, error);
            Acceptance(next, true) && Snapshot(next) && next.routed == th.routed
  {
  }

  lemma EarlyKeepsThread(w: World, t: nat)
    requires t in w.threads && !Holds(w.threads[t].pc) && ThreadOk(w, t)
    requires t in w.registered <==> WasRegistered(w.threads[t].pc)
    ensures t in AdvanceEarly(w, t).threads && ThreadOk(AdvanceEarly(w, t), t)
  {
    EarlyLocalOk(w, w.threads[t], t in w.registered);
    EarlyIsEarlyMove(w, t);
    hide Acceptance, Drain;
  }

  lemma HeldKeepsThread(w: World, t: nat, ok: bool, error: string)
    requires t in w.threads && Holds(w.threads[t].pc) && ThreadOk(w, t)
    requires t in w.registered && w.slot.Some? && w.slot.value.run == t
    ensures t in AdvanceHeld(w, t, ok, error).threads && ThreadOk(AdvanceHeld(w, t, ok, error), t)
  {
    HeldLocalOk(w, w.threads[t], ok, error);
    HeldIsHeldMove(w, t, ok, error);
    hide HeldLocal, HeldShared, Acceptance;
  }

  /** Threads that did not move are unaffected. */
  lemma OtherThreadsKept(w: World, v: World, t: nat, k: nat)
    requires OneHolder(w) && OnlyMoved(w, v, t) && k in w.threads && k != t && ThreadOk(w, k)
    requires k in v.registered <==> k in w.registered
    requires Holds(w.threads[k].pc) ==> v.slot == w.slot
    ensures ThreadOk(v, k)
  {
  }

  lemma DrainKeepsQueueOk(q: Queue)
    requires QueueOk(q)
    ensures QueueOk(Drain(q).0)
  {
  }

  lemma ApplyOpKeepsQueueOk(q: Queue, op: Op)
    requires QueueOk(q)
    ensures QueueOk(ApplyOp(q, op))
  {
    if op.DoRemove? {
      RetainedIsWhole(q.batches, op.p);
    }
  }

  lemma EarlyKeepsThreads(w: World, t: nat, k: nat)
    requires Inv(w) && t in w.threads && !Holds(w.threads[t].pc) && k in AdvanceEarly(w, t).threads
    ensures ThreadOk(AdvanceEarly(w, t), k)
  {
    EarlyIsEarlyMove(w, t);
    hide AdvanceEarly;
    if k == t {
      EarlyKeepsThread(w, t);
    } else {
      OtherThreadsKept(w, AdvanceEarly(w, t), t, k);
    }
  }

  lemma EarlyKeepsQueues(w: World, t: nat)
    requires t in w.threads && QueueOk(w.steering) && QueueOk(w.followUp)
    ensures QueueOk(AdvanceEarly(w, t).steering) && QueueOk(AdvanceEarly(w, t).followUp)
  {
    DrainKeepsQueueOk(w.steering);
    DrainKeepsQueueOk(w.followUp);
    hide Drain, QueueOk, EarlyLocal;
  }

  lemma EarlyKeepsWaiter(w: World, t: nat, u: nat)
    requires Inv(w) && t in w.threads && !Holds(w.threads[t].pc) && u in w.waiters
    ensures u in AdvanceEarly(w, t).waiters && WaiterOk(AdvanceEarly(w, t), u)
  {
    EarlyIsEarlyMove(w, t);
    RegisteringIsEarly(w.threads[t].pc);
    hide EarlyLocal, Drain, OneHolder, Quiet, ThreadOk;
  }

  lemma EarlyKeepsInv(w: World, t: nat)
    requires Inv(w) && t in w.threads && !Holds(w.threads[t].pc)
    ensures Inv(AdvanceEarly(w, t))
  {
    var v := AdvanceEarly(w, t);
    assert v.waiters == w.waiters;
    EarlyIsEarlyMove(w, t);
    hide AdvanceEarly, OneHolder, Registration, Quiet, ThreadOk, WaiterOk, QueueOk;
    EarlyMoveKeepsHolder(w, v, t);
    EarlyMoveKeepsRegistration(w, v, t);
    EarlyKeepsQuiet(w, t);
    EarlyKeepsQueues(w, t);
    forall k | k in v.threads
      ensures ThreadOk(v, k)
    {
      EarlyKeepsThreads(w, t, k);
    }
    forall u | u in v.waiters
      ensures WaiterOk(v, u)
    {
      EarlyKeepsWaiter(w, t, u);
    }
  }

  lemma HeldKeepsThreads(w: World, t: nat, ok: bool, error: string, k: nat)
    requires Inv(w) && t in w.threads && Holds(w.threads[t].pc) && k in AdvanceHeld(w, t, ok, error).threads
    ensures ThreadOk(AdvanceHeld(w, t, ok, error), k)
  {
    HeldIsHeldMove(w, t, ok, error);
    RegisteringIsEarly(w.threads[t].pc);
    hide AdvanceHeld, Quiet;
    if k == t {
      HeldKeepsThread(w, t, ok, error);
    } else {
      OtherThreadsKept(w, AdvanceHeld(w, t, ok, error), t, k);
    }
  }

  lemma HeldKeepsInv(w: World, t: nat, ok: bool, error: string)
    requires Inv(w) && t in w.threads && Holds(w.threads[t].pc)
    ensures Inv(AdvanceHeld(w, t, ok, error))
  {
    var v := AdvanceHeld(w, t, ok, error);
    HeldSharedMoves(w, w.threads[t].pc);
    assert v.steering == w.steering && v.followUp == w.followUp;
    HeldIsHeldMove(w, t, ok, error);
    hide AdvanceHeld, OneHolder, Registration, Quiet, ThreadOk, QueueOk, HeldLocal, HeldShared;
    HeldMoveKeepsHolder(w, v, t);
    RegisteringIsEarly(w.threads[t].pc);
    HeldMoveKeepsRegistration(w, v, t);
    HeldKeepsQuiet(w, t, ok, error);
    forall k | k in v.threads
      ensures ThreadOk(v, k)
    {
      HeldKeepsThreads(w, t, ok, error, k);
    }
    forall u | u in v.waiters
      ensures WaiterOk(v, u)
    {
      assert WaiterOk(w, u);
    }
  }

  lemma CallerLocalOk(th: Thread, registered: bool)
    requires Acceptance(th, registered)
    ensures Acceptance(CallerLocal(th), registered) && CallerLocal(th) == th.(caller := CallerLocal(th).caller)
  {
  }

  lemma SamePcs(w: World, v: World)
    requires OneHolder(w) && Quiet(w) && Registration(w) && v == w.(threads := v.threads)
    requires v.threads.Keys == w.threads.Keys && forall k :: k in w.threads ==> v.threads[k].pc == w.threads[k].pc
    ensures OneHolder(v) && Quiet(v) && Registration(v)
  {
    hide Holds, WasRegistered, Active;
  }

  lemma CallerKeepsInv(w: World, t: nat)
    requires Inv(w) && t in w.threads
    ensures Inv(CallerMoves(w, t))
  {
    var v := CallerMoves(w, t);
    assert ThreadOk(w, t);
    CallerLocalOk(w.threads[t], t in w.registered);
    SamePcs(w, v);
    hide Holds, WasRegistered, Active, CallerLocal, Acceptance, RowOf, OneHolder, Quiet, Registration;
    forall k | k in v.threads
      ensures ThreadOk(v, k)
    {
      assert ThreadOk(w, k);
    }
    forall u | u in v.waiters
      ensures WaiterOk(v, u)
    {
      assert WaiterOk(w, u);
    }
  }

  lemma WaiterKeepsInv(w: World, u: nat)
    requires Inv(w) && u in w.waiters
    ensures Inv(WaiterMoves(w, u))
  {
    var v := WaiterMoves(w, u);
    hide Holds, WasRegistered, Active, Acceptance, Snapshot;
    forall k | k in v.threads
      ensures ThreadOk(v, k)
    {
      assert ThreadOk(w, k);
    }
    forall k | k in v.waiters
      ensures WaiterOk(v, k)
    {
      assert WaiterOk(w, k);
    }
  }

  /** A new call: one thread more, nothing else. */
  predicate BeginMove(w: World, v: World, t: nat) {
    && t !in w.threads && t in v.threads && v == w.(threads := w.threads[t := v.threads[t]])
    && v.threads[t].pc.CheckBusy? && Acceptance(v.threads[t], false)
    && v.threads[t].routed.None? && v.threads[t].request.None?
  }

  lemma BeginIsBeginMove(w: World, t: nat, call: Call)
    requires t !in w.threads
    ensures BeginMove(w, Step(w, Begin(t, call)), t)
  {
  }

  lemma BeginMoveKeepsSlot(w: World, v: World, t: nat)
    requires OneHolder(w) && Quiet(w) && Registration(w) && BeginMove(w, v, t)
    ensures OneHolder(v) && Quiet(v) && Registration(v)
  {
    hide Acceptance;
  }

  lemma BeginMoveKeepsThread(w: World, v: World, t: nat, k: nat)
    requires Registration(w) && BeginMove(w, v, t) && k in v.threads && (k in w.threads ==> ThreadOk(w, k))
    ensures ThreadOk(v, k)
  {
    hide Acceptance;
  }

  lemma BeginKeepsInv(w: World, t: nat, call: Call)
    requires Inv(w)
    ensures Inv(Step(w, Begin(t, call)))
  {
    var v := Step(w, Begin(t, call));
    if t !in w.threads {
      BeginIsBeginMove(w, t, call);
      BeginMoveKeepsSlot(w, v, t);
      hide Step, OneHolder, Quiet, Registration, ThreadOk;
      forall k | k in v.threads
        ensures ThreadOk(v, k)
      {
        BeginMoveKeepsThread(w, v, t, k);
      }
      forall u | u in v.waiters
        ensures WaiterOk(v, u)
      {
        assert WaiterOk(w, u);
      }
    }
  }

  /** Steps that change only shared fields no thread's condition reads. */
  lemma SharedStepKeepsInv(w: World, v: World)
    requires Inv(w)
    requires v.threads == w.threads && v.waiters == w.waiters && v.idle == w.idle && v.registered == w.registered
    requires v.slot == w.slot || (w.slot.Some? && v.slot == Some(w.slot.value.(aborted := true)))
    requires Quiet(v) && QueueOk(v.steering) && QueueOk(v.followUp)
    ensures Inv(v)
  {
    hide Quiet, WasRegistered, Active, Holds, Acceptance, Snapshot, QueueOk;
    forall k | k in v.threads
      ensures ThreadOk(v, k)
    {
      assert ThreadOk(w, k);
    }
    forall u | u in v.waiters
      ensures WaiterOk(v, u)
    {
      assert WaiterOk(w, u);
    }
  }

  lemma WaitKeepsInv(w: World, u: nat)
    requires Inv(w)
    ensures Inv(Step(w, WaitForIdle(u)))
  {
    var v := Step(w, WaitForIdle(u));
    hide WasRegistered, Active, Acceptance, Snapshot, QueueOk;
    if w.slot.Some? {
      var r := w.slot.value.run;
      RegisteringIsEarly(w.threads[r].pc);
    }
    forall k | k in v.threads
      ensures ThreadOk(v, k)
    {
      assert ThreadOk(w, k);
    }
    forall k | k in v.waiters
      ensures WaiterOk(v, k)
    {
      if k in w.waiters {
        assert WaiterOk(w, k);
      }
    }
  }

  lemma StepKeepsInv(w: World, a: Action)
    requires Inv(w)
    ensures Inv(Step(w, a))
  {
    hide Inv, OneHolder, Registration, ThreadOk, WaiterOk, AdvanceEarly, AdvanceHeld, CallerMoves, WaiterMoves, Drain;
    match a
    case Begin(t, call) => BeginKeepsInv(w, t, call);
    case Advance(t, ok, error) =>
      if t in w.threads {
        if Holds(w.threads[t].pc) {
          HeldKeepsInv(w, t, ok, error);
        } else {
          EarlyKeepsInv(w, t);
        }
      }
    case CallerStep(t) =>
      if t in w.threads {
        CallerKeepsInv(w, t);
      }
    case WaitForIdle(u) => WaitKeepsInv(w, u);
    case WaiterStep(u) =>
      if u in w.waiters {
        WaiterKeepsInv(w, u);
      }
    case _ =>
      SharedActionKeepsQuiet(w, a);
      SharedStepKeepsInv(w, Step(w, a));
  }

  lemma SharedActionKeepsQuiet(w: World, a: Action)
    requires Inv(w)
    requires !a.Begin? && !a.Advance? && !a.CallerStep? && !a.WaitForIdle? && !a.WaiterStep?
    ensures var v := Step(w, a);
            Quiet(v) && QueueOk(v.steering) && QueueOk(v.followUp)
  {
    hide Registration, ThreadOk, WaiterOk, QueueOk, Drain, ApplyOp;
    match a
    case PollQueue(t, steering) =>
      DrainKeepsQueueOk(w.steering);
      DrainKeepsQueueOk(w.followUp);
    case QueueOp(steering, op) =>
      ApplyOpKeepsQueueOk(w.steering, op);
      ApplyOpKeepsQueueOk(w.followUp, op);
    case _ =>
  }

  /** An agent as constructed: no run, no thread, any transcript. */
  function NewAgent(messages: seq<AgentMessage>, model: string, level: ThinkingLevel,
                    steering: QueueMode, followUp: QueueMode): World
  {
    World(None, Shared(messages, false, None, {}, None, model, level), None,
          Queue(steering, []), Queue(followUp, []), map[], map[], map[], {})
  }

  lemma NewAgentInv(messages: seq<AgentMessage>, model: string, level: ThinkingLevel,
                    steering: QueueMode, followUp: QueueMode)
    ensures Inv(NewAgent(messages, model, level, steering, followUp))
  {
  }

  ghost predicate Reachable(w: World) {
    exists messages, model, level, steering, followUp, actions ::
      w == Run(NewAgent(messages, model, level, steering, followUp), actions)
  }

  lemma {:induction false} RunKeepsInv(w: World, actions: seq<Action>)
    requires Inv(w)
    ensures Inv(Run(w, actions))
    decreases actions
  {
    hide Inv, Step;
    if actions != [] {
      StepKeepsInv(w, actions[0]);
      RunKeepsInv(Step(w, actions[0]), actions[1..]);
    }
  }

  lemma ReachableInv(w: World)
    requires Reachable(w)
    ensures Inv(w)
  {
    hide Inv, Run;
    var messages, model, level, steering, followUp, actions :|
      w == Run(NewAgent(messages, model, level, steering, followUp), actions);
    NewAgentInv(messages, model, level, steering, followUp);
    hide NewAgent;
    RunKeepsInv(NewAgent(messages, model, level, steering, followUp), actions);
  }

  // ---------------------------------------------------------------------
  // What every interleaving guarantees
  // ---------------------------------------------------------------------

  /** At most one run holds the slot, and `is_streaming` implies it is held;
      while it is free no streaming message and no pending call remains. */
  lemma AtMostOneRun(w: World, t: nat, k: nat)
    requires Reachable(w)
    ensures t in w.threads && k in w.threads && Holds(w.threads[t].pc) && Holds(w.threads[k].pc) ==> t == k
    ensures w.shared.isStreaming ==> w.slot.Some?
    ensures w.slot.None? ==> !w.shared.isStreaming && w.shared.streaming.None? && w.shared.pending == {}
  {
    ReachableInv(w);
  }

  /** `wait_for_idle` returns only after the run it subscribed to released the
      slot. */
  lemma WaiterReturnsAfterRelease(w: World, u: nat)
    requires Reachable(w) && u in w.waiters && w.waiters[u].Idle? && w.waiters[u].left.Some?
    ensures var run := w.waiters[u].left.value;
            run in w.threads && WasRegistered(w.threads[run].pc) && !Holds(w.threads[run].pc)
            && (w.slot.Some? ==> w.slot.value.run != run)
  {
    ReachableInv(w);
    assert WaiterOk(w, u);
  }

  /** And its next look returns exactly when that run has left the slot. */
  lemma WaiterReturnsExactly(w: World, u: nat)
    requires Reachable(w) && u in w.waiters && w.waiters[u].Watching?
    ensures var (run, v) := (w.waiters[u].run, Step(w, WaiterStep(u)));
            && u in v.waiters
            && v.waiters[u] == if w.slot.Some? && w.slot.value.run == run then w.waiters[u] else Idle(Some(run))
  {
    ReachableInv(w);
    assert WaiterOk(w, u);
  }

  /** `prompt_until_accepted` returns Ok exactly when its run was registered,
      otherwise the refusal, and never reaches its `expect`. */
  lemma AcceptedExactlyWhenRegistered(w: World, t: nat)
    requires Reachable(w) && t in w.threads
    ensures var c := w.threads[t].caller;
            && !c.Panicked?
            && (c.Accepted? ==> t in w.registered)
            && (c.RefusedErr? || c.BusyErr? ==> t !in w.registered)
  {
    ReachableInv(w);
    assert ThreadOk(w, t);
  }

  /** The start signal of a registered run is never dropped, so its caller can
      only be accepted. */
  lemma RegisteredIsAccepted(w: World, t: nat)
    requires Reachable(w) && t in w.registered && t in w.threads && !w.threads[t].caller.NoCaller?
    ensures !w.threads[t].started.Dropped?
    ensures w.threads[t].caller.AwaitStarted? || w.threads[t].caller.Accepted?
  {
    ReachableInv(w);
    assert ThreadOk(w, t);
  }

  /** A run started with a model override uses one snapshot for its request
      model, its reasoning level, the slot and any failure row, whatever
      `set_model` and `set_model_override` do meanwhile. */
  lemma OverrideIsOneSnapshot(w: World, t: nat)
    requires Reachable(w) && t in w.threads && w.threads[t].routed.Some? && Holds(w.threads[t].pc)
    ensures var (th, o) := (w.threads[t], w.threads[t].routed.value);
            && w.slot.Some? && w.slot.value.run == t && w.slot.value.model == o.model
            && (th.request.Some? ==> th.request.value == Request(o.model, o.level))
            && (RowOf(th.pc).Some? ==> RowOf(th.pc).value.model == Some(o.model))
  {
    ReachableInv(w);
    assert ThreadOk(w, t);
  }

  /** Once read, the snapshot of a registered run never changes. */
  lemma {:induction false} SnapshotIsStable(w: World, t: nat, actions: seq<Action>)
    requires Inv(w) && t in w.threads && WasRegistered(w.threads[t].pc)
    ensures t in Run(w, actions).threads && WasRegistered(Run(w, actions).threads[t].pc)
    ensures Run(w, actions).threads[t].routed == w.threads[t].routed
    decreases actions
  {
    if actions != [] {
      StepKeepsInv(w, actions[0]);
      RegisteredStep(w, t, actions[0]);
      hide Step, Inv;
      SnapshotIsStable(Step(w, actions[0]), t, actions[1..]);
    }
  }

  predicate Moves(a: Action, t: nat) {
    a.Advance? && a.t == t
  }

  /** A thread is moved on only by its own steps. */
  lemma OwnSteps(w: World, a: Action, t: nat)
    requires t in w.threads && !Moves(a, t)
    ensures var v := Step(w, a);
            && t in v.threads && v.threads[t].pc == w.threads[t].pc
            && v.threads[t].routed == w.threads[t].routed && v.threads[t].request == w.threads[t].request
  {
    hide Drain, Reduce, ApplyOp, EarlyLocal, HeldLocal;
    if a.Advance? && a.t in w.threads {
      HeldSharedMoves(w, w.threads[a.t].pc);
      hide HeldShared;
    }
  }

  lemma RegisteredStep(w: World, t: nat, a: Action)
    requires t in w.threads && WasRegistered(w.threads[t].pc)
    ensures t in Step(w, a).threads && WasRegistered(Step(w, a).threads[t].pc)
    ensures Step(w, a).threads[t].routed == w.threads[t].routed
  {
    if Moves(a, t) {
      RegisteredLocal(w, w.threads[t], a.ok, a.error);
      hide HeldLocal, EarlyLocal, HeldShared, EarlyShared;
    } else {
      OwnSteps(w, a, t);
    }
  }

  lemma RegisteredLocal(w: World, th: Thread, ok: bool, error: string)
    requires WasRegistered(th.pc)
    ensures var next := if Holds(th.pc) then HeldLocal(w, th, ok, error) else EarlyLocal(w, th);
            WasRegistered(next.pc) && next.routed == th.routed
  {
    hide Drain;
  }

  // ---------------------------------------------------------------------
  // The transcript
  // ---------------------------------------------------------------------

  /** Messages a step appends to the transcript: those the loop ends, and the
      failure row. */
  function Appended(w: World, a: Action): seq<AgentMessage> {
    match a
    case Emit(t, ev) =>
      if t in w.threads && w.threads[t].pc == Executing && ev.MessageEnd? then [ev.message] else []
    case Advance(t, _, _) => if t in w.threads && w.threads[t].pc.EmitEnd? then [w.threads[t].pc.row] else []
    case _ => []
  }

  function AllAppended(w: World, actions: seq<Action>): seq<AgentMessage>
    decreases actions
  {
    if actions == [] then [] else Appended(w, actions[0]) + AllAppended(Step(w, actions[0]), actions[1..])
  }

  predicate LeavesTranscript(a: Action) {
    !a.SetMessages? && !a.ResetState?
  }

  /** Between explicit edits the transcript is what it was plus the messages
      ended and the failure rows, in order, whatever interleaves and whichever
      listeners fail. */
  lemma {:induction false} TranscriptGrows(w: World, actions: seq<Action>)
    requires forall i :: 0 <= i < |actions| ==> LeavesTranscript(actions[i])
    ensures Run(w, actions).shared.messages == w.shared.messages + AllAppended(w, actions)
    decreases actions
  {
    if actions == [] {
      assert w.shared.messages + [] == w.shared.messages;
    } else {
      hide Step, Appended, LeavesTranscript, Run, AllAppended;
      TranscriptStep(w, actions[0]);
      FirstAction(w, actions);
      var v := Step(w, actions[0]);
      TranscriptGrows(v, actions[1..]);
      AppendTwice(w.shared.messages, Appended(w, actions[0]), AllAppended(v, actions[1..]));
    }
  }

  lemma AppendTwice(a: seq<AgentMessage>, b: seq<AgentMessage>, c: seq<AgentMessage>)
    ensures (a + b) + c == a + (b + c)
  {
  }

  lemma FirstAction(w: World, actions: seq<Action>)
    requires actions != []
    ensures var v := Step(w, actions[0]);
            && Run(w, actions) == Run(v, actions[1..])
            && AllAppended(w, actions) == Appended(w, actions[0]) + AllAppended(v, actions[1..])
  {
    hide Step, Appended;
  }

  lemma TranscriptStep(w: World, a: Action)
    requires LeavesTranscript(a)
    ensures Step(w, a).shared.messages == w.shared.messages + Appended(w, a)
  {
    hide Drain, ApplyOp, EarlyLocal, HeldLocal;
    if a.Advance? && a.t in w.threads && Holds(w.threads[a.t].pc) {
      HeldMessages(w, w.threads[a.t].pc);
      hide HeldShared;
    }
  }

  lemma HeldMessages(w: World, pc: Pc)
    ensures HeldShared(w, pc).shared.messages == w.shared.messages + if pc.EmitEnd? then [pc.row] else []
  {
    assert w.shared.messages + [] == w.shared.messages;
  }

  // ---------------------------------------------------------------------
  // Continuing from the queues
  // ---------------------------------------------------------------------

  /** `continue_run` moves past a queue, and finally reports nothing to
      continue, only if that queue held nothing when it was drained. */
  lemma NothingToContinueMeansEmpty(w: World, t: nat, ok: bool, error: string)
    requires Reachable(w) && t in w.threads
    ensures var (pc, v) := (w.threads[t].pc, Step(w, Advance(t, ok, error)));
            && t in v.threads
            && (pc.DrainSteering? ==> (v.threads[t].pc == DrainFollowUp(pc.reason) <==> w.steering.batches == []))
            && (pc.DrainFollowUp? && pc.reason != AfterCustom ==>
                  (v.threads[t].pc == Finished(NothingToContinue) <==> w.followUp.batches == []))
  {
    ReachableInv(w);
    EmptyDrainMeansEmptyQueue(w.steering);
    EmptyDrainMeansEmptyQueue(w.followUp);
    hide Inv, Drain;
  }

  /** `continue_run` goes on at once exactly after a user message or a tool
      result. With no message, after an assistant message and after a custom one
      it first drains the queues; only after a custom one does it go on when
      both are empty. */
  lemma ContinueRoute(w: World, t: nat, ok: bool, error: string)
    requires t in w.threads
    ensures var (pc, next) := (w.threads[t].pc, Step(w, Advance(t, ok, error)).threads);
            var messages := w.shared.messages;
            && t in next
            && (pc.ReadLast? ==>
                  if messages == [] then next[t].pc == DrainSteering(NoMessages)
                  else match messages[|messages| - 1].role
                    case User => next[t].pc == ReadOverride
                    case ToolResult => next[t].pc == ReadOverride
                    case Assistant => next[t].pc == DrainSteering(AfterAssistant)
                    case Custom => next[t].pc == DrainSteering(AfterCustom))
            && (pc.DrainFollowUp? && Drain(w.followUp).1 == [] ==>
                  next[t].pc == match pc.reason
                    case NoMessages => Finished(NothingToContinue)
                    case AfterAssistant => Finished(NothingToContinue)
                    case AfterCustom => ReadOverride)
            && (pc.DrainFollowUp? && Drain(w.followUp).1 != [] ==> next[t].pc == ReadOverride)
            && (pc.DrainSteering? && Drain(w.steering).1 != [] ==> next[t].pc == ReadOverride)
  {
    hide Drain;
  }

  /** What a failed run shows while its row is recorded: first the error, then
      the row as the message being streamed, then the row at the end of the
      transcript and nothing streaming. */
  lemma FailureIsShown(w: World, t: nat, ok: bool, error: string)
    requires t in w.threads
    ensures var (pc, was, now) := (w.threads[t].pc, w.shared, Step(w, Advance(t, ok, error)).shared);
            && (pc.SettingError? ==> now == was.(errorMessage := pc.row.errorMessage))
            && (pc.EmitStart? ==> now == was.(streaming := Some(pc.row)))
            && (pc.EmitEnd? ==> now == was.(streaming := None, messages := was.messages + [pc.row]))
            && (pc.EmitAgentEnd? ==> now == was.(streaming := None))
  {
    hide Drain;
  }

  /** And in that order, with the same row throughout. */
  lemma FailureOrder(w: World, t: nat, ok: bool, error: string)
    requires t in w.threads
    ensures var (pc, next) := (w.threads[t].pc, Step(w, Advance(t, ok, error)).threads);
            && t in next
            && (pc.SettingError? ==> next[t].pc == EmitStart(pc.row))
            && (pc.EmitStart? ==> next[t].pc == EmitEnd(pc.row))
            && (pc.EmitEnd? ==> next[t].pc == EmitAgentEnd(pc.row))
            && (pc.EmitAgentEnd? ==> next[t].pc == Cleaning(false))
            && (pc == Cleaning(false) ==> next[t].pc == Releasing(false))
  {
    hide Drain;
  }

  /** Taking from one queue takes from its front, and leaves the other alone. */
  predicate TakesFront(was: Queue, now: Queue, other: Queue, kept: Queue) {
    Drain(was).1 + Flatten(now.batches) == Flatten(was.batches) && now.mode == was.mode && other == kept
  }

  /** A continuation, and the loop of a run, take from the queue they name. */
  lemma DrainsItsQueue(w: World, t: nat, ok: bool, error: string, steering: bool)
    requires t in w.threads
    ensures var (pc, v) := (w.threads[t].pc, Step(w, Advance(t, ok, error)));
            && (pc.DrainSteering? ==> TakesFront(w.steering, v.steering, w.followUp, v.followUp))
            && (pc.DrainFollowUp? ==> TakesFront(w.followUp, v.followUp, w.steering, v.steering))
            && (!pc.DrainSteering? && !pc.DrainFollowUp? ==> v.steering == w.steering && v.followUp == w.followUp)
    ensures var v := Step(w, PollQueue(t, steering));
            w.threads[t].pc == Executing ==>
              if steering then TakesFront(w.steering, v.steering, w.followUp, v.followUp)
              else TakesFront(w.followUp, v.followUp, w.steering, v.steering)
  {
    DrainKeepsMessages(w.steering);
    DrainKeepsMessages(w.followUp);
    DrainKeepsMode(w.steering);
    DrainKeepsMode(w.followUp);
    hide Drain, Flatten, EarlyLocal, HeldLocal, Reduce;
  }

  lemma DrainKeepsMode(q: Queue)
    ensures Drain(q).0.mode == q.mode
  {
    hide Flatten;
  }
}
