/** The assistant event stream: one shared state behind a mutex, any number of
    writers, one polling consumer, and any number of `result` futures. */
module EventStream {
  import opened JsonText

  datatype Message = Message(content: string)

  /** The two terminal events carry the final message; every other event
      carries a partial one. */
  datatype Event = Update(kind: string, partial: Message) | Done(message: Message) | Error(message: Message)

  predicate IsTerminal(e: Event) {
    e.Done? || e.Error?
  }

  /** The shared state as a value. Wakers and one-shot channels are named by
      numbers: `delivered` holds what was sent into each channel, `woken` the
      wake calls in order. */
  datatype Shared = Shared(
    done: bool,
    queue: seq<Event>,
    waker: Option<nat>,
    resolved: Option<Message>,
    waiters: seq<nat>,
    delivered: map<nat, Message>,
    woken: seq<nat>)

  const NEW_SHARED := Shared(false, [], None, None, [], map[], [])

  function Deliver(delivered: map<nat, Message>, waiters: seq<nat>, m: Message): map<nat, Message> {
    delivered + map w | w in waiters :: m
  }

  lemma DeliverNone(delivered: map<nat, Message>, m: Message)
    ensures Deliver(delivered, [], m) == delivered
  {
  }

  lemma DeliverOneMore(delivered: map<nat, Message>, waiters: seq<nat>, w: nat, m: Message)
    ensures Deliver(delivered, waiters + [w], m) == Deliver(delivered, waiters, m)[w := m]
  {
  }

  /** Every one of `waiters` was sent the message. */
  predicate Answered(waiters: seq<nat>, delivered: map<nat, Message>, m: Message) {
    forall w :: w in waiters ==> w in delivered && delivered[w] == m
  }

  /** First writer wins; every waiter gets the message. */
  function Resolve(s: Shared, m: Message): Shared {
    if s.resolved.Some? then s
    else s.(resolved := Some(m), waiters := [], delivered := Deliver(s.delivered, s.waiters, m))
  }

  function Wake(s: Shared): Shared {
    if s.waker.Some? then s.(waker := None, woken := s.woken + [s.waker.value]) else s
  }

  function Push(s: Shared, e: Event): Shared {
    if s.done then s
    else
      var t := if IsTerminal(e) then Resolve(s.(done := true), e.message) else s;
      Wake(t.(queue := t.queue + [e]))
  }

  function End(s: Shared, result: Option<Message>): Shared {
    var t := s.(done := true);
    Wake(if result.Some? then Resolve(t, result.value) else t)
  }

  datatype Polled = Ready(event: Option<Event>) | Pending

  function Poll(s: Shared, waker: nat): (Shared, Polled) {
    if s.queue != [] then (s.(queue := s.queue[1..]), Ready(Some(s.queue[0])))
    else if s.done then (s, Ready(None))
    else (s.(waker := Some(waker)), Pending)
  }

  /** The second critical section of `result`: the message, or one more
      waiter. */
  function Register(s: Shared, waiter: nat): (Shared, Option<Message>) {
    if s.resolved.Some? then (s, s.resolved) else (s.(waiters := s.waiters + [waiter]), None)
  }

  class SharedState {
    var done: bool
    var queue: seq<Event>
    var waker: Option<nat>
    var resolved: Option<Message>
    var waiters: seq<nat>
    var delivered: map<nat, Message>
    var woken: seq<nat>

    /** A stored waker has nothing to wait for yet; a resolved stream is done
        and owes nobody a message. */
    ghost predicate Valid()
      reads this
    {
      && (waker.Some? ==> queue == [] && !done)
      && (resolved.Some? ==> done && waiters == [])
    }

    ghost function View(): Shared
      reads this
    {
      Shared(done, queue, waker, resolved, waiters, delivered, woken)
    }

    constructor ()
      ensures Valid() && View() == NEW_SHARED
    {
      done, queue, waker, resolved, waiters, delivered, woken := false, [], None, None, [], map[], [];
    }

    method ResolveWith(message: Message)
      modifies this
      ensures View() == Resolve(old(View()), message)
    {
      if resolved.None? {
        resolved := Some(message);
        var taken := waiters;
        waiters := [];
        SendAll(taken, message);
      }
    }

    method SendAll(taken: seq<nat>, message: Message)
      modifies this`delivered
      ensures delivered == Deliver(old(delivered), taken, message)
    {
      hide Deliver;
      DeliverNone(delivered, message);
      assert taken[..0] == [];
      for i := 0 to |taken|
        invariant delivered == Deliver(old(delivered), taken[..i], message)
      {
        assert taken[..i + 1] == taken[..i] + [taken[i]];
        DeliverOneMore(old(delivered), taken[..i], taken[i], message);
        delivered := delivered[taken[i] := message];
      }
      assert taken[..|taken|] == taken;
    }

    method WakeConsumer()
      modifies this
      ensures View() == Wake(old(View()))
    {
      if waker.Some? {
        woken := woken + [waker.value];
        waker := None;
      }
    }

    /** After the end nothing is accepted. Before it the event is queued and a
        stored waker is called; a terminal event ends the stream, and its
        message is the result of everyone who waits. */
    method PushEvent(event: Event)
      requires Valid()
      modifies this
      ensures Valid()
      ensures old(done) ==> View() == old(View())
      ensures !old(done) ==> queue == old(queue) + [event] && (done <==> IsTerminal(event))
      ensures !old(done) && old(waker).Some? ==> woken == old(woken) + [old(waker).value]
      ensures !old(done) && IsTerminal(event) ==>
                resolved == Some(event.message) && Answered(old(waiters), delivered, event.message)
      ensures match event
              case Update(_, _) => done == old(done) && resolved == old(resolved)
              case Done(m) => done && (!old(done) ==> resolved == Some(m))
              case Error(m) => done && (!old(done) ==> resolved == Some(m))
      ensures View() == Push(old(View()), event)
    {
      if done {
        return;
      }
      if IsTerminal(event) {
        done := true;
        ResolveWith(event.message);
      }
      queue := queue + [event];
      WakeConsumer();
    }

    /** The stream is done and keeps its queue; the first result wins, and it
        answers everyone who waits. */
    method EndStream(result: Option<Message>)
      requires Valid()
      modifies this
      ensures Valid() && done && queue == old(queue)
      ensures old(waker).Some? ==> woken == old(woken) + [old(waker).value]
      ensures resolved == if old(resolved).Some? then old(resolved) else result
      ensures resolved.Some? && old(resolved).None? ==> Answered(old(waiters), delivered, resolved.value)
      ensures View() == End(old(View()), result)
    {
      done := true;
      if result.Some? {
        ResolveWith(result.value);
      }
      WakeConsumer();
    }

    /** The front of the queue; the end only once the queue is empty; otherwise
        the waker stays behind. */
    method PollNext(cx: nat) returns (polled: Polled)
      requires Valid()
      modifies this
      ensures Valid()
      ensures polled.Pending? ==> waker == Some(cx) && queue == old(queue) == [] && !done
      ensures polled == Ready(None) ==> done && queue == old(queue) == [] && View() == old(View())
      ensures polled.Ready? && polled.event.Some? ==> old(queue) == [polled.event.value] + queue
      ensures (View(), polled) == Poll(old(View()), cx)
    {
      if queue != [] {
        polled := Ready(Some(queue[0]));
        queue := queue[1..];
        return;
      }
      if done {
        return Ready(None);
      }
      waker := Some(cx);
      return Pending;
    }

    /** A message is the result; without one the waiter is owed it. */
    method RegisterWaiter(waiter: nat) returns (message: Option<Message>)
      requires Valid()
      modifies this
      ensures Valid() && message == resolved == old(resolved)
      ensures message.None? ==> waiters == old(waiters) + [waiter]
      ensures (View(), message) == Register(old(View()), waiter)
    {
      if resolved.Some? {
        return resolved;
      }
      waiters := waiters + [waiter];
      return None;
    }
  }

  // ---------------------------------------------------------------------
  // Every interleaving
  // ---------------------------------------------------------------------

  /** A `result` future: before its first look, between its two critical
      sections, awaiting its channel, or finished. `Panicked` is the `expect`
      on a channel that was dropped without a message. */
  datatype Future = Checked | Waiting | Returned(message: Message) | Panicked

  /** One critical section of some thread. */
  datatype Action =
    | DoPush(event: Event)
    | DoEnd(result: Option<Message>)
    | DoPoll(waker: nat)
    | DoTryResult(id: nat)
    | DoRegister(id: nat)
    | DoAwait(id: nat)

  /** The state with its history: accepted pushes, events received by the
      consumer, the futures, and the consumer's last pending poll, with
      whether its waker has been called since. */
  datatype World = World(
    s: Shared,
    accepted: seq<Event>,
    received: seq<Event>,
    futures: map<nat, Future>,
    parked: Option<nat>,
    signalled: bool)

  const NEW_WORLD := World(NEW_SHARED, [], [], map[], None, false)

  /** Wake calls made between two states. */
  predicate WokeParked(w: World, next: Shared) {
    w.parked.Some? && |next.woken| > |w.s.woken| && w.parked.value in next.woken[|w.s.woken|..]
  }

  function Act(w: World, a: Action): World {
    match a
    case DoPush(e) =>
      var next := Push(w.s, e);
      w.(s := next, accepted := if w.s.done then w.accepted else w.accepted + [e],
         signalled := w.signalled || WokeParked(w, next))
    case DoEnd(r) =>
      var next := End(w.s, r);
      w.(s := next, signalled := w.signalled || WokeParked(w, next))
    case DoPoll(k) =>
      var (next, polled) := Poll(w.s, k);
      if polled.Pending? then w.(s := next, parked := Some(k), signalled := false)
      else w.(s := next, parked := None, signalled := false,
              received := if polled.event.Some? then w.received + [polled.event.value] else w.received)
    case DoTryResult(id) =>
      if id in w.futures then w
      else w.(futures := w.futures[id := if w.s.resolved.Some? then Returned(w.s.resolved.value) else Checked])
    case DoRegister(id) =>
      if id !in w.futures || !w.futures[id].Checked? then w
      else
        var (next, message) := Register(w.s, id);
        w.(s := next, futures := w.futures[id := if message.Some? then Returned(message.value) else Waiting])
    case DoAwait(id) =>
      if id !in w.futures || !w.futures[id].Waiting? then w
      else if id in w.s.delivered then w.(futures := w.futures[id := Returned(w.s.delivered[id])])
      else if id in w.s.waiters then w
      else w.(futures := w.futures[id := if w.s.resolved.Some? then Returned(w.s.resolved.value) else Panicked])
  }

  function Run(w: World, actions: seq<Action>): World
    decreases actions
  {
    if actions == [] then w else Run(Act(w, actions[0]), actions[1..])
  }

  // ---------------------------------------------------------------------
  // The inductive invariant
  // ---------------------------------------------------------------------

  /** Received events followed by the queue are the accepted pushes; at most
      one accepted event is terminal, it is last, and its message is the
      resolved result. */
  predicate InOrder(w: World) {
    && w.accepted == w.received + w.s.queue
    && (forall i :: 0 <= i < |w.accepted| && IsTerminal(w.accepted[i]) ==> i == |w.accepted| - 1)
    && (w.accepted != [] && IsTerminal(w.accepted[|w.accepted| - 1]) ==>
          w.s.done && w.s.resolved == Some(w.accepted[|w.accepted| - 1].message))
  }

  /** A stored waker means nothing to deliver yet; a parked consumer whose
      waker was not called has nothing to wake for. */
  predicate NoLostWakeup(w: World) {
    && (w.s.waker.Some? ==> w.s.queue == [] && !w.s.done)
    && (w.parked.Some? && !w.signalled ==> w.s.waker == w.parked)
  }

  /** A resolved stream has no pending waiter, every future that waits is in
      the list or has its message, and only the resolved message is ever
      returned. */
  predicate NoLostResult(w: World) {
    && (w.s.resolved.Some? ==> w.s.done && w.s.waiters == [])
    && (forall id :: id in w.s.waiters ==> id in w.futures && w.futures[id].Waiting?)
    && (forall id :: id in w.s.delivered ==> w.s.resolved == Some(w.s.delivered[id]))
    && (forall id :: id in w.futures ==>
          match w.futures[id]
          case Checked => true
          case Waiting => id in w.s.waiters || id in w.s.delivered
          case Returned(m) => w.s.resolved == Some(m)
          case Panicked => false)
  }

  predicate Inv(w: World) {
    InOrder(w) && NoLostWakeup(w) && NoLostResult(w)
  }

  lemma ActKeepsOrder(w: World, a: Action)
    requires InOrder(w) && NoLostResult(w)
    ensures InOrder(Act(w, a))
  {
    if a.DoPush? {
      PushKeepsOrder(w, a.event);
    } else if a.DoPoll? && w.s.queue != [] {
      assert Act(w, a).accepted == (w.received + [w.s.queue[0]]) + w.s.queue[1..];
    }
  }

  lemma PushKeepsOrder(w: World, e: Event)
    requires InOrder(w) && NoLostResult(w)
    ensures InOrder(Act(w, DoPush(e)))
  {
    if !w.s.done {
      assert Act(w, DoPush(e)).accepted == w.received + (w.s.queue + [e]);
    }
  }

  lemma ActKeepsWakeups(w: World, a: Action)
    requires NoLostWakeup(w)
    ensures NoLostWakeup(Act(w, a))
  {
    var v := Act(w, a);
    if (a.DoPush? || a.DoEnd?) && w.s.waker.Some? {
      assert v.s.woken == w.s.woken + [w.s.waker.value];
      assert v.s.woken[|w.s.woken|..] == [w.s.waker.value];
    }
  }

  lemma ActKeepsResults(w: World, a: Action)
    requires NoLostResult(w)
    ensures NoLostResult(Act(w, a))
  {
    if a.DoPush? || a.DoEnd? {
      ResolveKeepsResults(w, a);
    } else {
      hide Deliver, IsTerminal;
    }
  }

  lemma ResolveKeepsResults(w: World, a: Action)
    requires NoLostResult(w) && (a.DoPush? || a.DoEnd?)
    ensures NoLostResult(Act(w, a))
  {
    hide WokeParked, IsTerminal;
  }

  lemma ActKeepsInv(w: World, a: Action)
    requires Inv(w)
    ensures Inv(Act(w, a))
  {
    hide Act;
    ActKeepsOrder(w, a);
    ActKeepsWakeups(w, a);
    ActKeepsResults(w, a);
  }

  lemma {:induction false} RunKeepsInv(w: World, actions: seq<Action>)
    requires Inv(w)
    ensures Inv(Run(w, actions))
    decreases actions
  {
    hide Inv, Act;
    if actions != [] {
      ActKeepsInv(w, actions[0]);
      RunKeepsInv(Act(w, actions[0]), actions[1..]);
    }
  }

  /** Over every interleaving of pushes and ends from any number of writers,
      polls and result futures: delivery in order, one terminal event, no lost
      wakeup, no lost or wrong result, no panic. */
  lemma EveryInterleaving(actions: seq<Action>)
    ensures Inv(Run(NEW_WORLD, actions))
  {
    RunKeepsInv(NEW_WORLD, actions);
  }

  // ---------------------------------------------------------------------
  // Consequences over whole runs
  // ---------------------------------------------------------------------

  lemma ActIsFinal(w: World, a: Action)
    ensures w.s.done ==> Act(w, a).s.done && Act(w, a).accepted == w.accepted
    ensures w.s.resolved.Some? ==> Act(w, a).s.resolved == w.s.resolved
    ensures forall id :: id in w.futures && w.futures[id].Returned? ==>
              id in Act(w, a).futures && Act(w, a).futures[id] == w.futures[id]
  {
  }

  /** Once done no push is accepted; once resolved the result never changes;
      a future that returned keeps its message. */
  lemma {:induction false} TerminationIsFinal(w: World, actions: seq<Action>)
    ensures w.s.done ==> Run(w, actions).s.done && Run(w, actions).accepted == w.accepted
    ensures w.s.resolved.Some? ==> Run(w, actions).s.resolved == w.s.resolved
    ensures forall id :: id in w.futures && w.futures[id].Returned? ==>
              id in Run(w, actions).futures && Run(w, actions).futures[id] == w.futures[id]
    decreases actions
  {
    hide Act;
    if actions != [] {
      ActIsFinal(w, actions[0]);
      TerminationIsFinal(Act(w, actions[0]), actions[1..]);
    }
  }

  /** When a poll reports the end, the consumer has received every accepted
      event, and it stays that way. */
  lemma EndOfStreamMeansAllReceived(actions: seq<Action>, waker: nat, later: seq<Action>)
    requires Poll(Run(NEW_WORLD, actions).s, waker).1 == Ready(None)
    ensures var w := Run(NEW_WORLD, actions);
            w.received == w.accepted && Run(w, later).received == w.received && Run(w, later).accepted == w.accepted
  {
    var w := Run(NEW_WORLD, actions);
    RunKeepsInv(NEW_WORLD, actions);
    assert w.received + [] == w.received;
    RunKeepsInv(w, later);
    TerminationIsFinal(w, later);
    ReceivedGrows(w, later);
    var v := Run(w, later);
    assert v.received == v.accepted[..|v.received|];
  }

  lemma {:induction false} ReceivedGrows(w: World, actions: seq<Action>)
    ensures |w.received| <= |Run(w, actions).received|
    decreases actions
  {
    if actions != [] {
      ReceivedGrows(Act(w, actions[0]), actions[1..]);
    }
  }

  /** A waiting future is answered as soon as the stream resolves, with the
      resolved message. */
  lemma WaitersAreAnswered(actions: seq<Action>, id: nat)
    requires var w := Run(NEW_WORLD, actions);
             w.s.resolved.Some? && id in w.futures && w.futures[id].Waiting?
    ensures var w := Run(NEW_WORLD, actions);
            id in Act(w, DoAwait(id)).futures && Act(w, DoAwait(id)).futures[id] == Returned(w.s.resolved.value)
  {
    RunKeepsInv(NEW_WORLD, actions);
  }
}
