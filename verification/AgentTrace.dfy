/** What happens over whole traces of the agent: the failure row of a run, and
    the two readings of the session model. */
module AgentTrace {
  import opened JsonText
  import opened AgentTypes
  import opened PendingQueue
  import opened AgentState
  import opened AgentRun

  predicate IsNew(w: World) {
    w == NewAgent(w.shared.messages, w.shared.model, w.shared.level, w.steering.mode, w.followUp.mode)
  }

  /** The states passed through by `actions`, from a new agent on. */
  predicate IsTrace(ws: seq<World>, actions: seq<Action>) {
    && |ws| == |actions| + 1 && IsNew(ws[0])
    && forall i :: 0 <= i < |actions| ==> ws[i + 1] == Step(ws[i], actions[i])
  }

  lemma {:induction false} TraceInv(ws: seq<World>, actions: seq<Action>, n: nat)
    requires IsTrace(ws, actions) && n <= |actions|
    ensures AgentRun.Inv(ws[n])
  {
    hide AgentRun.Inv, Step;
    if n == 0 {
      var w := ws[0];
      NewAgentInv(w.shared.messages, w.shared.model, w.shared.level, w.steering.mode, w.followUp.mode);
    } else {
      TraceInv(ws, actions, n - 1);
      StepKeepsInv(ws[n - 1], actions[n - 1]);
    }
  }

  /** Step `i` moves thread `t` on from the program point it has there. */
  predicate MovesAt(ws: seq<World>, actions: seq<Action>, t: nat, i: nat)
    requires |ws| == |actions| + 1
  {
    i < |actions| && Moves(actions[i], t) && t in ws[i].threads
  }

  lemma NewThread(w: World, a: Action, t: nat)
    requires t !in w.threads && t in Step(w, a).threads
    ensures var th := Step(w, a).threads[t]; th.pc.CheckBusy? && th.routed.None? && th.request.None?
  {
    hide Drain, Reduce, ApplyOp, EarlyLocal, HeldLocal;
    if a.Advance? && a.t in w.threads {
      HeldSharedMoves(w, w.threads[a.t].pc);
      hide HeldShared;
    }
  }

  /** While a thread holds the slot, other steps can at most set its abort
      flag. */
  lemma SlotKept(w: World, a: Action, t: nat)
    requires AgentRun.Inv(w) && t in w.threads && Holds(w.threads[t].pc) && !Moves(a, t)
    ensures var v := Step(w, a);
            w.slot.Some? && v.slot.Some? && v.slot.value.run == w.slot.value.run == t
            && v.slot.value.model == w.slot.value.model
  {
    hide Drain, Reduce, ApplyOp, EarlyLocal, HeldLocal, HeldShared, ThreadOk, WaiterOk, Registration, Quiet;
    assert OneHolder(w);
  }

  /** While it moves inside its run, it keeps the slot. */
  lemma SlotHeld(w: World, a: Action, t: nat)
    requires AgentRun.Inv(w) && t in w.threads && Holds(w.threads[t].pc) && Moves(a, t)
    ensures w.slot.Some? && w.slot.value.run == t
    ensures !w.threads[t].pc.Releasing? ==> Step(w, a).slot == w.slot
  {
    HeldSharedMoves(w, w.threads[t].pc);
    hide HeldLocal, HeldShared, ThreadOk, WaiterOk, Registration, Quiet;
    assert OneHolder(w);
  }

  // ---------------------------------------------------------------------
  // The failure row
  // ---------------------------------------------------------------------

  /** How far the failure path of a run has got: 1 once the executor failed, 2
      once its signal was read, 3 once the row is built, 4 once it is in the
      transcript. */
  function Stage(pc: Pc): nat {
    match pc
    case Failing(_) => 1
    case BuildingRow(_, _) => 2
    case SettingError(_) => 3
    case EmitStart(_) => 3
    case EmitEnd(_) => 3
    case EmitAgentEnd(_) => 4
    case Cleaning(ok) => if ok then 0 else 4
    case Releasing(ok) => if ok then 0 else 4
    case Settling(ok) => if ok then 0 else 4
    case Finished(outcome) => if outcome == Ran(false) then 4 else 0
    case _ => 0
  }

  function StageAt(w: World, t: nat): nat {
    if t in w.threads then Stage(w.threads[t].pc) else 0
  }

  /** The executor of the run returns an error. */
  predicate Throws(ws: seq<World>, actions: seq<Action>, t: nat, i: nat)
    requires |ws| == |actions| + 1
  {
    MovesAt(ws, actions, t, i) && ws[i].threads[t].pc.Executing? && !actions[i].ok
  }

  /** The abort signal of the run is read. */
  predicate ReadsSignal(ws: seq<World>, actions: seq<Action>, t: nat, i: nat)
    requires |ws| == |actions| + 1
  {
    MovesAt(ws, actions, t, i) && ws[i].threads[t].pc.Failing?
  }

  /** A failure row of the run is appended to the transcript. */
  predicate AppendsRow(ws: seq<World>, actions: seq<Action>, t: nat, i: nat)
    requires |ws| == |actions| + 1
  {
    MovesAt(ws, actions, t, i) && ws[i].threads[t].pc.EmitEnd?
  }

  datatype Failure = Failure(threw: nat, read: nat, ended: nat)

  /** The row due: the error thrown, the model of the slot, and the signal as
      read. */
  function RowDue(ws: seq<World>, actions: seq<Action>, h: Failure): AgentMessage
    requires h.threw < |actions| && h.read < |ws| && actions[h.threw].Advance? && ws[h.read].slot.Some?
  {
    FailureRow(ws[h.read].slot.value.model, ws[h.read].slot.value.aborted, actions[h.threw].error)
  }

  predicate OnlyAt(ws: seq<World>, actions: seq<Action>, t: nat, n: nat, stage: nat, h: Failure)
    requires |ws| == |actions| + 1 && n <= |actions|
  {
    && (forall i :: 0 <= i < n ==> (Throws(ws, actions, t, i) <==> stage >= 1 && i == h.threw))
    && (forall i :: 0 <= i < n ==> (ReadsSignal(ws, actions, t, i) <==> stage >= 2 && i == h.read))
    && (forall i :: 0 <= i < n ==> (AppendsRow(ws, actions, t, i) <==> stage >= 4 && i == h.ended))
    && (stage >= 1 ==> h.threw < n)
    && (stage >= 2 ==> h.threw < h.read < n)
    && (stage >= 4 ==> h.read < h.ended < n)
  }

  /** What thread `t` holds after `n` steps, in terms of the steps that led
      there. */
  predicate Holding(ws: seq<World>, actions: seq<Action>, t: nat, n: nat, h: Failure)
    requires |ws| == |actions| + 1 && n <= |actions| && OnlyAt(ws, actions, t, n, StageAt(ws[n], t), h)
  {
    var stage := StageAt(ws[n], t);
    && (stage == 1 ==> Throws(ws, actions, t, h.threw) && ws[n].threads[t].pc == Failing(actions[h.threw].error))
    && (stage >= 2 ==> Throws(ws, actions, t, h.threw) && ws[h.read].slot.Some? && ws[h.read].slot.value.run == t)
    && (stage == 2 ==>
          && ws[n].threads[t].pc == BuildingRow(ws[h.read].slot.value.aborted, actions[h.threw].error)
          && ws[n].slot.Some? && ws[n].slot.value.model == ws[h.read].slot.value.model)
    && (stage == 3 ==> RowOf(ws[n].threads[t].pc) == Some(RowDue(ws, actions, h)))
    && (stage == 4 ==> AppendsRow(ws, actions, t, h.ended)
                       && ws[h.ended].threads[t].pc == EmitEnd(RowDue(ws, actions, h)))
  }

  predicate History(ws: seq<World>, actions: seq<Action>, t: nat, n: nat, h: Failure)
    requires |ws| == |actions| + 1 && n <= |actions|
  {
    OnlyAt(ws, actions, t, n, StageAt(ws[n], t), h) && Holding(ws, actions, t, n, h)
  }

  /** One own step along the failure path, from `pc` to `next`. */
  predicate Forward(w: World, a: Action, t: nat, pc: Pc, next: Pc)
    requires a.Advance?
  {
    match pc
    case Executing => if a.ok then Stage(next) == 0 else next == Failing(a.error)
    case Failing(e) => w.slot.Some? && w.slot.value.run == t && next == BuildingRow(w.slot.value.aborted, e)
    case BuildingRow(aborted, e) => w.slot.Some? && next == SettingError(FailureRow(w.slot.value.model, aborted, e))
    case SettingError(row) => next == EmitStart(row)
    case EmitStart(row) => next == EmitEnd(row)
    case _ => Stage(next) == if pc.EmitEnd? then 4 else Stage(pc)
  }

  lemma HeldForward(w: World, a: Action, t: nat, th: Thread)
    requires Moves(a, t) && Holds(th.pc) && w.slot.Some? && w.slot.value.run == t
    ensures Forward(w, a, t, th.pc, HeldLocal(w, th, a.ok, a.error).pc)
  {
    hide FailureRow, RequestOf;
  }

  lemma EarlyForward(w: World, a: Action, t: nat, th: Thread)
    requires Moves(a, t) && !Holds(th.pc)
    ensures Forward(w, a, t, th.pc, EarlyLocal(w, th).pc)
  {
    hide Drain;
  }

  lemma StageStep(w: World, a: Action, t: nat)
    requires AgentRun.Inv(w) && t in w.threads && Moves(a, t)
    ensures t in Step(w, a).threads && Forward(w, a, t, w.threads[t].pc, Step(w, a).threads[t].pc)
  {
    hide AgentRun.Inv, HeldLocal, EarlyLocal, HeldShared, EarlyShared, Forward;
    if Holds(w.threads[t].pc) {
      SlotHeld(w, a, t);
      HeldForward(w, a, t, w.threads[t]);
    } else {
      EarlyForward(w, a, t, w.threads[t]);
    }
  }

  /** The thread stands where it stood, or has only just begun. */
  predicate StandsStill(w: World, v: World, t: nat) {
    if t in w.threads then
      && t in v.threads && v.threads[t].pc == w.threads[t].pc
      && (w.threads[t].pc.BuildingRow? ==>
            w.slot.Some? && v.slot.Some? && v.slot.value.model == w.slot.value.model)
    else t in v.threads ==> v.threads[t].pc.CheckBusy?
  }

  lemma OtherStepStands(w: World, a: Action, t: nat)
    requires AgentRun.Inv(w) && !(t in w.threads && Moves(a, t))
    ensures StandsStill(w, Step(w, a), t)
  {
    hide AgentRun.Inv, Step;
    if t in w.threads {
      OwnSteps(w, a, t);
      if w.threads[t].pc.BuildingRow? {
        SlotKept(w, a, t);
      }
    } else if t in Step(w, a).threads {
      NewThread(w, a, t);
    }
  }

  lemma OtherStep(ws: seq<World>, actions: seq<Action>, t: nat, n: nat, h: Failure)
    requires IsTrace(ws, actions) && n < |actions| && AgentRun.Inv(ws[n]) && !MovesAt(ws, actions, t, n)
    requires History(ws, actions, t, n, h)
    ensures History(ws, actions, t, n + 1, h)
  {
    hide AgentRun.Inv, Step;
    OtherStepStands(ws[n], actions[n], t);
    assert StageAt(ws[n + 1], t) == StageAt(ws[n], t);
    OtherEvents(ws, actions, t, n, StageAt(ws[n], t), h);
    hide OnlyAt;
  }

  lemma OtherEvents(ws: seq<World>, actions: seq<Action>, t: nat, n: nat, stage: nat, h: Failure)
    requires |ws| == |actions| + 1 && n < |actions| && !MovesAt(ws, actions, t, n)
             && OnlyAt(ws, actions, t, n, stage, h)
    ensures OnlyAt(ws, actions, t, n + 1, stage, h)
  {
  }

  lemma OwnStep(ws: seq<World>, actions: seq<Action>, t: nat, n: nat, h: Failure) returns (h': Failure)
    requires IsTrace(ws, actions) && n < |actions| && AgentRun.Inv(ws[n]) && MovesAt(ws, actions, t, n)
    requires History(ws, actions, t, n, h)
    ensures History(ws, actions, t, n + 1, h')
  {
    hide AgentRun.Inv, Step, OnlyAt, Holding;
    var (w, pc) := (ws[n], ws[n].threads[t].pc);
    StageStep(w, actions[n], t);
    h' := h;
    if Throws(ws, actions, t, n) {
      h' := h.(threw := n);
    } else if pc.Failing? {
      h' := h.(read := n);
    } else if pc.EmitEnd? {
      h' := h.(ended := n);
    }
    OwnEvents(ws, actions, t, n, h, h');
    OwnHolding(ws, actions, t, n, h, h');
  }

  /** The step counts, moved on by one own step. */
  lemma OwnEvents(ws: seq<World>, actions: seq<Action>, t: nat, n: nat, h: Failure, h': Failure)
    requires |ws| == |actions| + 1 && MovesAt(ws, actions, t, n) && n + 1 < |ws| && t in ws[n + 1].threads
    requires OnlyAt(ws, actions, t, n, StageAt(ws[n], t), h)
    requires Turned(ws, actions, t, n, h, h')
    ensures OnlyAt(ws, actions, t, n + 1, StageAt(ws[n + 1], t), h')
  {
    hide Step;
  }

  /** How one own step changes stage and history together. */
  predicate Turned(ws: seq<World>, actions: seq<Action>, t: nat, n: nat, h: Failure, h': Failure)
    requires |ws| == |actions| + 1 && MovesAt(ws, actions, t, n) && n + 1 < |ws| && t in ws[n + 1].threads
  {
    var (pc, pc') := (ws[n].threads[t].pc, ws[n + 1].threads[t].pc);
    if Throws(ws, actions, t, n) then h' == h.(threw := n) && Stage(pc') == 1
    else if pc.Failing? then h' == h.(read := n) && Stage(pc') == 2
    else if pc.BuildingRow? then h' == h && Stage(pc') == 3
    else if pc.EmitEnd? then h' == h.(ended := n) && Stage(pc') == 4
    else h' == h && Stage(pc') == Stage(pc)
  }

  lemma OwnHolding(ws: seq<World>, actions: seq<Action>, t: nat, n: nat, h: Failure, h': Failure)
    requires IsTrace(ws, actions) && n < |actions| && AgentRun.Inv(ws[n]) && MovesAt(ws, actions, t, n)
             && History(ws, actions, t, n, h)
    requires t in ws[n + 1].threads && Turned(ws, actions, t, n, h, h')
    requires OnlyAt(ws, actions, t, n + 1, StageAt(ws[n + 1], t), h')
    ensures Holding(ws, actions, t, n + 1, h')
  {
    var (w, pc) := (ws[n], ws[n].threads[t].pc);
    StageStep(w, actions[n], t);
    if pc.Failing? {
      SlotHeld(w, actions[n], t);
    }
    hide AgentRun.Inv, Step;
  }

  lemma {:induction false} TraceHistory(ws: seq<World>, actions: seq<Action>, t: nat, n: nat) returns (h: Failure)
    requires IsTrace(ws, actions) && n <= |actions|
    ensures History(ws, actions, t, n, h)
  {
    hide AgentRun.Inv, Step, Holding, OnlyAt;
    if n == 0 {
      h := Failure(0, 0, 0);
      EmptyHistory(ws, actions, t, h);
    } else {
      h := TraceHistory(ws, actions, t, n - 1);
      TraceInv(ws, actions, n - 1);
      if MovesAt(ws, actions, t, n - 1) {
        h := OwnStep(ws, actions, t, n - 1, h);
      } else {
        OtherStep(ws, actions, t, n - 1, h);
      }
    }
  }

  lemma EmptyHistory(ws: seq<World>, actions: seq<Action>, t: nat, h: Failure)
    requires IsTrace(ws, actions)
    ensures History(ws, actions, t, 0, h)
  {
    hide Step;
  }

  /** A run that failed appended exactly one row, and a run that succeeded
      none. The row carries the error its executor threw, the model of its slot
      and its own abort signal as read after the failure, whatever interleaves
      and whichever listeners fail; the transcript holds it at that place. */
  lemma OneRowPerFailure(ws: seq<World>, actions: seq<Action>, t: nat) returns (h: Failure)
    requires IsTrace(ws, actions)
    requires t in ws[|actions|].threads && ws[|actions|].threads[t].pc.Finished?
             && ws[|actions|].threads[t].pc.outcome.Ran?
    ensures ws[|actions|].threads[t].pc.outcome.ok ==> forall i :: 0 <= i < |actions| ==> !AppendsRow(ws, actions, t, i)
    ensures !ws[|actions|].threads[t].pc.outcome.ok ==>
              && h.threw < h.read < h.ended < |actions|
              && Throws(ws, actions, t, h.threw) && ReadsSignal(ws, actions, t, h.read)
              && ws[h.read].slot.Some? && ws[h.read].slot.value.run == t
              && (forall i :: 0 <= i < |actions| ==> (AppendsRow(ws, actions, t, i) <==> i == h.ended))
              && Appended(ws[h.ended], actions[h.ended]) == [RowDue(ws, actions, h)]
              && AllAppended(ws[0], actions) ==
                 AllAppended(ws[0], actions[..h.ended]) + [RowDue(ws, actions, h)]
                 + AllAppended(ws[h.ended + 1], actions[h.ended + 1..])
  {
    hide AgentRun.Inv, Step;
    h := TraceHistory(ws, actions, t, |actions|);
    if !ws[|actions|].threads[t].pc.outcome.ok {
      AppendedSplit(ws, actions, h.ended);
    }
  }

  // ---------------------------------------------------------------------
  // The transcript along a trace
  // ---------------------------------------------------------------------

  lemma {:induction false} AppendedFrom(ws: seq<World>, actions: seq<Action>, i: nat, j: nat)
    requires IsTrace(ws, actions) && i <= j <= |actions|
    ensures AllAppended(ws[i], actions[i..]) == AllAppended(ws[i], actions[i..j]) + AllAppended(ws[j], actions[j..])
    decreases j - i
  {
    hide Step, Appended;
    if i == j {
      assert actions[i..i] == [];
    } else {
      AppendedFrom(ws, actions, i + 1, j);
      assert actions[i..][1..] == actions[i + 1..] && actions[i..j][1..] == actions[i + 1..j];
      FirstAction(ws[i], actions[i..]);
      FirstAction(ws[i], actions[i..j]);
      hide AllAppended;
      AppendTwice(Appended(ws[i], actions[i]), AllAppended(ws[i + 1], actions[i + 1..j]),
                  AllAppended(ws[j], actions[j..]));
    }
  }

  lemma AppendedSplit(ws: seq<World>, actions: seq<Action>, i: nat)
    requires IsTrace(ws, actions) && i < |actions|
    ensures AllAppended(ws[0], actions) ==
            AllAppended(ws[0], actions[..i]) + Appended(ws[i], actions[i]) + AllAppended(ws[i + 1], actions[i + 1..])
  {
    hide Step, Appended, AllAppended;
    AppendedFrom(ws, actions, 0, i);
    assert actions[0..] == actions && actions[0..i] == actions[..i];
    FirstAction(ws[i], actions[i..]);
    assert actions[i..][1..] == actions[i + 1..];
    AppendTwice(AllAppended(ws[0], actions[..i]), Appended(ws[i], actions[i]),
                AllAppended(ws[i + 1], actions[i + 1..]));
  }

  // ---------------------------------------------------------------------
  // The two readings of the session model
  // ---------------------------------------------------------------------

  /** 1 once the model of the run is recorded, 2 once its request is. */
  function Phase(pc: Pc): nat {
    match pc
    case CheckBusy(_) => 0
    case ReadLast => 0
    case DrainSteering(_) => 0
    case DrainFollowUp(_) => 0
    case ReadOverride => 0
    case ReadModel => 0
    case Registering(_) => 1
    case Refusing => 1
    case Initialising => 1
    case Starting => 1
    case Configuring => 1
    case Finished(outcome) => if outcome.Ran? then 2 else if outcome.Refusal? then 1 else 0
    case _ => 2
  }

  function PhaseAt(w: World, t: nat): nat {
    if t in w.threads then Phase(w.threads[t].pc) else 0
  }

  /** The run reads the model to record in its slot. */
  predicate ReadsModel(ws: seq<World>, actions: seq<Action>, t: nat, i: nat)
    requires |ws| == |actions| + 1
  {
    MovesAt(ws, actions, t, i) && ws[i].threads[t].pc.ReadModel?
  }

  /** The run configures its request. */
  predicate Configures(ws: seq<World>, actions: seq<Action>, t: nat, i: nat)
    requires |ws| == |actions| + 1
  {
    MovesAt(ws, actions, t, i) && ws[i].threads[t].pc.Configuring?
  }

  datatype Readings = Readings(recorded: nat, configured: nat)

  predicate ReadOnlyAt(ws: seq<World>, actions: seq<Action>, t: nat, n: nat, phase: nat, r: Readings)
    requires |ws| == |actions| + 1 && n <= |actions|
  {
    && (forall i :: 0 <= i < n ==> (ReadsModel(ws, actions, t, i) <==> phase >= 1 && i == r.recorded))
    && (forall i :: 0 <= i < n ==> (Configures(ws, actions, t, i) <==> phase >= 2 && i == r.configured))
    && (phase >= 1 ==> r.recorded < n)
    && (phase >= 2 ==> r.recorded < r.configured < n)
  }

  /** The slot of run `t` records `model`. */
  predicate Records(w: World, t: nat, model: string) {
    w.slot.Some? && w.slot.value.run == t && w.slot.value.model == model
  }

  /** The session's model and reasoning level. */
  function SessionRequest(w: World): Request {
    Request(w.shared.model, w.shared.level)
  }

  /** What a run without override has recorded. */
  predicate Recorded(ws: seq<World>, actions: seq<Action>, t: nat, n: nat, r: Readings)
    requires |ws| == |actions| + 1 && n <= |actions| && ReadOnlyAt(ws, actions, t, n, PhaseAt(ws[n], t), r)
  {
    var phase := PhaseAt(ws[n], t);
    && (t in ws[n].threads ==> (ws[n].threads[t].request.Some? <==> phase == 2))
    && (phase >= 1 && ws[n].threads[t].routed.None? ==>
          var (th, model) := (ws[n].threads[t], ws[r.recorded].shared.model);
          && (th.pc.Registering? ==> th.pc.model == model)
          && (phase == 1 && Holds(th.pc) ==> Records(ws[n], t, model))
          && (phase == 2 ==> Records(ws[r.configured], t, model)
                             && th.request == Some(SessionRequest(ws[r.configured]))))
  }

  predicate ReadHistory(ws: seq<World>, actions: seq<Action>, t: nat, n: nat, r: Readings)
    requires |ws| == |actions| + 1 && n <= |actions|
  {
    ReadOnlyAt(ws, actions, t, n, PhaseAt(ws[n], t), r) && Recorded(ws, actions, t, n, r)
  }

  predicate ReadStandsStill(w: World, v: World, t: nat) {
    if t in w.threads then
      && t in v.threads && v.threads[t].pc == w.threads[t].pc
      && v.threads[t].routed == w.threads[t].routed && v.threads[t].request == w.threads[t].request
      && (Holds(w.threads[t].pc) ==>
            w.slot.Some? && v.slot.Some? && v.slot.value.run == w.slot.value.run
            && v.slot.value.model == w.slot.value.model)
    else t in v.threads ==> v.threads[t].pc.CheckBusy? && v.threads[t].request.None?
  }

  lemma ReadOtherStep(ws: seq<World>, actions: seq<Action>, t: nat, n: nat, r: Readings)
    requires IsTrace(ws, actions) && n < |actions| && AgentRun.Inv(ws[n]) && !MovesAt(ws, actions, t, n)
    requires ReadHistory(ws, actions, t, n, r)
    ensures ReadHistory(ws, actions, t, n + 1, r)
  {
    hide AgentRun.Inv, Step;
    var (w, a) := (ws[n], actions[n]);
    assert ReadStandsStill(w, ws[n + 1], t) by {
      if t in w.threads {
        OwnSteps(w, a, t);
        if Holds(w.threads[t].pc) {
          SlotKept(w, a, t);
        }
      } else if t in ws[n + 1].threads {
        NewThread(w, a, t);
      }
    }
    assert PhaseAt(ws[n + 1], t) == PhaseAt(w, t);
    ReadOtherEvents(ws, actions, t, n, PhaseAt(w, t), r);
    hide ReadOnlyAt;
  }

  lemma ReadOtherEvents(ws: seq<World>, actions: seq<Action>, t: nat, n: nat, phase: nat, r: Readings)
    requires |ws| == |actions| + 1 && n < |actions| && !MovesAt(ws, actions, t, n)
    requires ReadOnlyAt(ws, actions, t, n, phase, r)
    ensures ReadOnlyAt(ws, actions, t, n + 1, phase, r)
  {
  }

  /** One own step along the readings, from `th` to `next`. */
  predicate ReadForward(w: World, v: World, t: nat, th: Thread, next: Thread) {
    && (if th.pc.ReadModel? then
          next.pc.Registering? && next.routed == th.routed && (th.routed.None? ==> next.pc.model == w.shared.model)
        else if th.pc.Registering? then
          && Phase(next.pc) == 1 && !next.pc.Registering? && next.routed == th.routed
          && (Holds(next.pc) ==> Records(v, t, th.pc.model))
        else if th.pc.Configuring? then
          && Phase(next.pc) == 2 && next.routed == th.routed && next.request.Some?
          && (th.routed.None? ==> next.request == Some(SessionRequest(w)))
        else
          && Phase(next.pc) == Phase(th.pc) && !next.pc.Registering? && (Phase(th.pc) >= 1 ==> next.routed == th.routed)
          && next.request == th.request
          && (Phase(th.pc) == 1 && Holds(next.pc) ==> Holds(th.pc)))
    && (!th.pc.Configuring? ==> next.request == th.request)
    && (Holds(th.pc) && Phase(th.pc) == 1 ==> v.slot == w.slot)
  }

  lemma HeldReads(w: World, a: Action, t: nat)
    requires AgentRun.Inv(w) && t in w.threads && Moves(a, t) && Holds(w.threads[t].pc)
    ensures var v := Step(w, a); t in v.threads && ReadForward(w, v, t, w.threads[t], v.threads[t])
  {
    hide AgentRun.Inv, HeldShared, HeldLocal, ReadForward;
    SlotHeld(w, a, t);
    HeldLocalReads(w, Step(w, a), t, w.threads[t], a.ok, a.error);
  }

  lemma HeldLocalReads(w: World, v: World, t: nat, th: Thread, ok: bool, error: string)
    requires Holds(th.pc) && (!th.pc.Releasing? ==> v.slot == w.slot)
    ensures ReadForward(w, v, t, th, HeldLocal(w, th, ok, error))
  {
    hide FailureRow, FailureModel;
  }

  lemma EarlyReads(w: World, a: Action, t: nat)
    requires t in w.threads && Moves(a, t) && !Holds(w.threads[t].pc)
    ensures var v := Step(w, a); t in v.threads && ReadForward(w, v, t, w.threads[t], v.threads[t])
  {
    hide Drain;
  }

  predicate ReadTurned(ws: seq<World>, actions: seq<Action>, t: nat, n: nat, r: Readings, r': Readings)
    requires |ws| == |actions| + 1 && MovesAt(ws, actions, t, n) && n + 1 < |ws| && t in ws[n + 1].threads
  {
    var (pc, pc') := (ws[n].threads[t].pc, ws[n + 1].threads[t].pc);
    if pc.ReadModel? then r' == r.(recorded := n) && Phase(pc') == 1
    else if pc.Configuring? then r' == r.(configured := n) && Phase(pc') == 2
    else r' == r && Phase(pc') == Phase(pc)
  }

  lemma ReadOwnEvents(ws: seq<World>, actions: seq<Action>, t: nat, n: nat, r: Readings, r': Readings)
    requires |ws| == |actions| + 1 && MovesAt(ws, actions, t, n) && n + 1 < |ws| && t in ws[n + 1].threads
    requires ReadOnlyAt(ws, actions, t, n, PhaseAt(ws[n], t), r) && ReadTurned(ws, actions, t, n, r, r')
    ensures ReadOnlyAt(ws, actions, t, n + 1, PhaseAt(ws[n + 1], t), r')
  {
  }

  lemma ReadOwnStep(ws: seq<World>, actions: seq<Action>, t: nat, n: nat, r: Readings) returns (r': Readings)
    requires IsTrace(ws, actions) && n < |actions| && AgentRun.Inv(ws[n]) && MovesAt(ws, actions, t, n)
    requires ReadHistory(ws, actions, t, n, r)
    ensures ReadHistory(ws, actions, t, n + 1, r')
  {
    hide AgentRun.Inv, Step;
    var (w, pc) := (ws[n], ws[n].threads[t].pc);
    if Holds(pc) {
      HeldReads(w, actions[n], t);
    } else {
      EarlyReads(w, actions[n], t);
    }
    r' := if pc.ReadModel? then r.(recorded := n) else if pc.Configuring? then r.(configured := n) else r;
    ReadOwnEvents(ws, actions, t, n, r, r');
    hide ReadOnlyAt;
  }

  lemma {:induction false} TraceReadHistory(ws: seq<World>, actions: seq<Action>, t: nat, n: nat) returns (r: Readings)
    requires IsTrace(ws, actions) && n <= |actions|
    ensures ReadHistory(ws, actions, t, n, r)
  {
    hide AgentRun.Inv, Step, Recorded, ReadOnlyAt;
    if n == 0 {
      r := Readings(0, 0);
      EmptyReadHistory(ws, actions, t, r);
    } else {
      r := TraceReadHistory(ws, actions, t, n - 1);
      TraceInv(ws, actions, n - 1);
      if MovesAt(ws, actions, t, n - 1) {
        r := ReadOwnStep(ws, actions, t, n - 1, r);
      } else {
        ReadOtherStep(ws, actions, t, n - 1, r);
      }
    }
  }

  lemma EmptyReadHistory(ws: seq<World>, actions: seq<Action>, t: nat, r: Readings)
    requires IsTrace(ws, actions)
    ensures ReadHistory(ws, actions, t, 0, r)
  {
    hide Step;
  }

  /** The last model set in `actions`, if any is. */
  function LastModel(actions: seq<Action>): Option<string> {
    if actions == [] then None
    else if actions[|actions| - 1].SetModel? then Some(actions[|actions| - 1].model)
    else LastModel(actions[..|actions| - 1])
  }

  lemma ModelStep(w: World, a: Action)
    ensures Step(w, a).shared.model == if a.SetModel? then a.model else w.shared.model
  {
    hide Drain, ApplyOp, EarlyLocal, HeldLocal;
  }

  lemma {:induction false} ModelBetween(ws: seq<World>, actions: seq<Action>, i: nat, j: nat)
    requires IsTrace(ws, actions) && i <= j <= |actions|
    ensures var last := LastModel(actions[i..j]);
            ws[j].shared.model == if last.Some? then last.value else ws[i].shared.model
  {
    hide Step;
    if i < j {
      ModelBetween(ws, actions, i, j - 1);
      ModelStep(ws[j - 1], actions[j - 1]);
      assert actions[i..j][..j - 1 - i] == actions[i..j - 1];
    }
  }

  /** A run without an override reads the session model twice, once for its
      slot and once for its request. The two agree exactly when no model was
      set in between, or the last one set is the one read first. The request
      carries the session's model and level as they are at the second read. */
  lemma SessionModelReadTwice(ws: seq<World>, actions: seq<Action>, t: nat) returns (r: Readings)
    requires IsTrace(ws, actions) && t in ws[|actions|].threads
    requires ws[|actions|].threads[t].request.Some? && ws[|actions|].threads[t].routed.None?
    ensures r.recorded < r.configured < |actions|
    ensures forall i :: 0 <= i < |actions| ==> (ReadsModel(ws, actions, t, i) <==> i == r.recorded)
    ensures forall i :: 0 <= i < |actions| ==> (Configures(ws, actions, t, i) <==> i == r.configured)
    ensures ws[r.configured].slot.Some? && ws[r.configured].slot.value.run == t
    ensures ws[|actions|].threads[t].request == Some(SessionRequest(ws[r.configured]))
    ensures var last := LastModel(actions[r.recorded..r.configured]);
            ws[|actions|].threads[t].request.value.model == ws[r.configured].slot.value.model
            <==> last.None? || last.value == ws[r.recorded].shared.model
  {
    hide Step, LastModel;
    r := TraceReadHistory(ws, actions, t, |actions|);
    ModelBetween(ws, actions, r.recorded, r.configured);
  }

  // ---------------------------------------------------------------------
  // A run whose two readings differ
  // ---------------------------------------------------------------------

  const GO := Advance(0, true, "")

  /** A prompt, and a model switch right before its request is configured. */
  function DriftActions(model: string, level: ThinkingLevel): seq<Action> {
    [Begin(0, Prompt), GO, GO, GO, GO, GO, GO, SetModel(model, level), GO]
  }

  /** Thread 0, without an override, at `pc`. */
  predicate Stands(w: World, pc: Pc, slot: Option<ActiveRun>, model: string, level: ThinkingLevel) {
    && 0 in w.threads && w.threads[0].pc == pc && w.threads[0].routed.None? && w.routed.None?
    && w.slot == slot && w.shared.model == model && w.shared.level == level
  }

  lemma Prepare(w: World, model: string, level: ThinkingLevel)
    ensures Stands(w, CheckBusy(Prompt), None, model, level) ==> Stands(Step(w, GO), ReadOverride, None, model, level)
    ensures Stands(w, ReadOverride, None, model, level) ==> Stands(Step(w, GO), ReadModel, None, model, level)
  {
    hide Drain, HeldLocal, HeldShared;
  }

  lemma Register(w: World, model: string, level: ThinkingLevel)
    ensures Stands(w, ReadModel, None, model, level) ==> Stands(Step(w, GO), Registering(model), None, model, level)
    ensures Stands(w, Registering(model), None, model, level) ==>
              Stands(Step(w, GO), Initialising, Some(ActiveRun(0, false, model)), model, level)
  {
    hide Drain, HeldLocal, HeldShared;
  }

  lemma Proceed(w: World, slot: ActiveRun, model: string, level: ThinkingLevel)
    ensures Stands(w, Initialising, Some(slot), model, level) ==>
              Stands(Step(w, GO), Starting, Some(slot), model, level)
    ensures Stands(w, Starting, Some(slot), model, level) ==> Stands(Step(w, GO), Configuring, Some(slot), model, level)
    ensures Stands(w, Configuring, Some(slot), model, level) ==>
              Stands(Step(w, GO), Executing, Some(slot), model, level)
              && Step(w, GO).threads[0].request == Some(Request(model, level))
  {
    hide Drain, EarlyLocal, EarlyShared, Reduce, Released, FailureModel, FailureRow;
  }

  lemma Switch(w: World, pc: Pc, slot: Option<ActiveRun>, model: string, other: string, level: ThinkingLevel)
    requires Stands(w, pc, slot, model, level)
    ensures Stands(Step(w, SetModel(other, level)), pc, slot, other, level)
  {
  }

  lemma RunSnoc(w: World, actions: seq<Action>, a: Action)
    ensures Run(w, actions + [a]) == Step(Run(w, actions), a)
    decreases actions
  {
    hide Step;
    if actions == [] {
      assert (actions + [a])[1..] == [];
    } else {
      assert (actions + [a])[1..] == actions[1..] + [a];
      RunSnoc(Step(w, actions[0]), actions[1..], a);
    }
  }

  /** The state after the first `n` of the actions. */
  function Drifting(model: string, other: string, level: ThinkingLevel, mode: QueueMode, n: nat): World
    requires n <= 9
  {
    Run(NewAgent([], model, level, mode, mode), DriftActions(other, level)[..n])
  }

  lemma DriftStep(model: string, other: string, level: ThinkingLevel, mode: QueueMode, n: nat)
    requires n < 9
    ensures Drifting(model, other, level, mode, n + 1) ==
            Step(Drifting(model, other, level, mode, n),
                 if n == 0 then Begin(0, Prompt) else if n == 7 then SetModel(other, level) else GO)
  {
    hide Step, Run, NewAgent;
    var all := DriftActions(other, level);
    assert all[..n + 1] == all[..n] + [all[n]];
    RunSnoc(NewAgent([], model, level, mode, mode), all[..n], all[n]);
  }

  lemma DriftPrepared(model: string, other: string, level: ThinkingLevel, mode: QueueMode)
    ensures Stands(Drifting(model, other, level, mode, 5), Initialising, Some(ActiveRun(0, false, model)), model, level)
  {
    DriftStep(model, other, level, mode, 0);
    assert Stands(Drifting(model, other, level, mode, 1), CheckBusy(Prompt), None, model, level);
    hide Step, Drifting, Stands;
    DriftStep(model, other, level, mode, 1);
    Prepare(Drifting(model, other, level, mode, 1), model, level);
    DriftStep(model, other, level, mode, 2);
    Prepare(Drifting(model, other, level, mode, 2), model, level);
    DriftStep(model, other, level, mode, 3);
    Register(Drifting(model, other, level, mode, 3), model, level);
    DriftStep(model, other, level, mode, 4);
    Register(Drifting(model, other, level, mode, 4), model, level);
  }

  /** For any two models, the request can be sent to the second while the slot
      records the first. */
  lemma SessionModelDrifts(model: string, other: string, level: ThinkingLevel, mode: QueueMode)
    ensures var w := Run(NewAgent([], model, level, mode, mode), DriftActions(other, level));
            && 0 in w.threads && w.threads[0].request == Some(Request(other, level))
            && w.slot == Some(ActiveRun(0, false, model))
  {
    hide Step, Run, NewAgent;
    var slot := ActiveRun(0, false, model);
    assert DriftActions(other, level)[..9] == DriftActions(other, level);
    assert Drifting(model, other, level, mode, 9) ==
           Run(NewAgent([], model, level, mode, mode), DriftActions(other, level));
    hide Drifting;
    DriftPrepared(model, other, level, mode);
    DriftStep(model, other, level, mode, 5);
    Proceed(Drifting(model, other, level, mode, 5), slot, model, level);
    DriftStep(model, other, level, mode, 6);
    Proceed(Drifting(model, other, level, mode, 6), slot, model, level);
    DriftStep(model, other, level, mode, 7);
    Switch(Drifting(model, other, level, mode, 7), Configuring, Some(slot), model, other, level);
    DriftStep(model, other, level, mode, 8);
    Proceed(Drifting(model, other, level, mode, 8), slot, other, level);
  }
}
