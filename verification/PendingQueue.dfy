/** `PendingMessageQueue`: batches of steering or follow-up messages. */
module PendingQueue {
  import opened AgentTypes

  datatype QueueMode = All | OneAtATime

  datatype Batch = Single(message: AgentMessage) | Many(messages: seq<AgentMessage>)

  datatype Queue = Queue(mode: QueueMode, batches: seq<seq<AgentMessage>>)

  function Flatten(batches: seq<seq<AgentMessage>>): seq<AgentMessage> {
    if batches == [] then [] else batches[0] + Flatten(batches[1..])
  }

  function Contents(b: Batch): seq<AgentMessage> {
    match b
    case Single(m) => [m]
    case Many(ms) => ms
  }

  function Enqueue(q: Queue, b: Batch): Queue {
    if Contents(b) == [] then q else q.(batches := q.batches + [Contents(b)])
  }

  function Drain(q: Queue): (Queue, seq<AgentMessage>) {
    if q.mode == All then (q.(batches := []), Flatten(q.batches))
    else if q.batches == [] then (q, [])
    else (q.(batches := q.batches[1..]), q.batches[0])
  }

  predicate AnyOf(batch: seq<AgentMessage>, p: AgentMessage -> bool) {
    exists i :: 0 <= i < |batch| && p(batch[i])
  }

  function Retained(batches: seq<seq<AgentMessage>>, p: AgentMessage -> bool): seq<seq<AgentMessage>> {
    if batches == [] then []
    else (if AnyOf(batches[0], p) then [] else [batches[0]]) + Retained(batches[1..], p)
  }

  function Removed(batches: seq<seq<AgentMessage>>, p: AgentMessage -> bool): seq<AgentMessage> {
    if batches == [] then []
    else (if AnyOf(batches[0], p) then batches[0] else []) + Removed(batches[1..], p)
  }

  predicate NoneEmpty(batches: seq<seq<AgentMessage>>) {
    forall i :: 0 <= i < |batches| ==> batches[i] != []
  }

  /** Of the batches there were, exactly those without a match. */
  ghost predicate AreWithout(now: seq<seq<AgentMessage>>, was: seq<seq<AgentMessage>>, p: AgentMessage -> bool) {
    forall b :: b in now <==> b in was && forall m :: m in b ==> !p(m)
  }

  class PendingMessageQueue {
    var mode: QueueMode
    var batches: seq<seq<AgentMessage>>

    ghost predicate Valid()
      reads this
    {
      NoneEmpty(batches)
    }

    ghost function View(): Queue
      reads this
    {
      Queue(mode, batches)
    }

    /** The queued messages, in the order they came. */
    ghost function Messages(): seq<AgentMessage>
      reads this
    {
      Flatten(batches)
    }

    constructor (mode: QueueMode)
      ensures Valid() && Messages() == [] && View() == Queue(mode, [])
    {
      this.mode, batches := mode, [];
    }

    /** The messages join at the back, as one batch; an empty batch is none. */
    method EnqueueBatch(message: Batch)
      requires Valid()
      modifies this`batches
      ensures Valid() && Messages() == old(Messages()) + Contents(message)
      ensures View() == Enqueue(old(View()), message)
    {
      hide Flatten;
      FlattenLast(batches, Contents(message));
      match message {
        case Single(m) => batches := batches + [[m]];
        case Many(ms) =>
          if ms != [] {
            batches := batches + [ms];
          } else {
            assert Messages() + [] == Messages();
          }
      }
    }

    /** Messages leave from the front and nothing is lost; with something
        queued, something leaves. */
    method DrainBatches() returns (drained: seq<AgentMessage>)
      requires Valid()
      modifies this`batches
      ensures Valid() && drained + Messages() == old(Messages())
      ensures drained == [] <==> old(batches) == []
      ensures mode == All ==> batches == []
      ensures (View(), drained) == Drain(old(View()))
    {
      DrainKeepsMessages(View());
      EmptyDrainMeansEmptyQueue(View());
      if mode == All {
        drained := Flatten(batches);
        batches := [];
        return;
      }
      if batches != [] {
        drained := batches[0];
        batches := batches[1..];
        return;
      }
      drained := [];
    }

    /** Exactly the batches with a match leave, whole. */
    method RemoveWhere(p: AgentMessage -> bool) returns (removed: seq<AgentMessage>)
      requires Valid()
      modifies this`batches
      ensures Valid() && AreWithout(batches, old(batches), p)
      ensures multiset(old(Messages())) == multiset(Messages()) + multiset(removed)
      ensures View() == old(View()).(batches := Retained(old(batches), p))
      ensures removed == Removed(old(batches), p)
    {
      hide Retained, Removed, Flatten, AnyOf;
      RemovalSplits(batches, p);
      RetainedIsWhole(batches, p);
      forall b
        ensures b in Retained(batches, p) <==> b in batches && forall m :: m in b ==> !p(m)
      {
        RetainedExactly(batches, p, b);
      }
      var retained;
      retained, removed := Partition(batches, p);
      batches := retained;
    }

    /** The loop over the drained batches. */
    static method Partition(batches: seq<seq<AgentMessage>>, p: AgentMessage -> bool)
      returns (retained: seq<seq<AgentMessage>>, removed: seq<AgentMessage>)
      ensures retained == Retained(batches, p) && removed == Removed(batches, p)
    {
      hide AnyOf;
      retained, removed := [], [];
      assert batches[0..] == batches;
      for i := 0 to |batches|
        invariant retained + Retained(batches[i..], p) == Retained(batches, p)
        invariant removed + Removed(batches[i..], p) == Removed(batches, p)
      {
        assert batches[i..][1..] == batches[i + 1..];
        if AnyOf(batches[i], p) {
          assert [] + Retained(batches[i + 1..], p) == Retained(batches[i + 1..], p);
          removed := removed + batches[i];
        } else {
          assert [] + Removed(batches[i + 1..], p) == Removed(batches[i + 1..], p);
          retained := retained + [batches[i]];
        }
      }
      assert batches[|batches|..] == [];
    }
  }

  /** `run_queued_messages`, up to the run it starts: steering messages first,
      follow-ups only when there are none. */
  method TakeQueued(steering: PendingMessageQueue, followUp: PendingMessageQueue)
    returns (messages: seq<AgentMessage>, steered: bool)
    requires steering != followUp && steering.Valid() && followUp.Valid()
    modifies steering`batches, followUp`batches
    ensures steering.Valid() && followUp.Valid()
    ensures messages == [] <==> old(steering.batches) == [] && old(followUp.batches) == []
    ensures steered <==> old(steering.batches) != []
    ensures steered ==>
              messages + steering.Messages() == old(steering.Messages()) && followUp.batches == old(followUp.batches)
    ensures !steered ==> messages + followUp.Messages() == old(followUp.Messages()) && steering.batches == []
  {
    messages := steering.DrainBatches();
    steered := messages != [];
    if !steered {
      messages := followUp.DrainBatches();
    }
  }

  /** `remove_queued_messages`: no queued batch with a match is left, and the
      result is what left, steering batches first. */
  method RemoveQueued(steering: PendingMessageQueue, followUp: PendingMessageQueue, p: AgentMessage -> bool)
    returns (removed: seq<AgentMessage>)
    requires steering != followUp && steering.Valid() && followUp.Valid()
    modifies steering`batches, followUp`batches
    ensures steering.Valid() && followUp.Valid()
    ensures AreWithout(steering.batches, old(steering.batches), p)
    ensures AreWithout(followUp.batches, old(followUp.batches), p)
    ensures multiset(old(steering.Messages())) + multiset(old(followUp.Messages())) ==
            multiset(steering.Messages()) + multiset(followUp.Messages()) + multiset(removed)
    ensures removed == Removed(old(steering.batches), p) + Removed(old(followUp.batches), p)
  {
    hide AreWithout, Removed;
    removed := steering.RemoveWhere(p);
    var more := followUp.RemoveWhere(p);
    removed := removed + more;
  }

  lemma FlattenLast(batches: seq<seq<AgentMessage>>, last: seq<AgentMessage>)
    ensures Flatten(batches + [last]) == Flatten(batches) + last
  {
    FlattenAppend(batches, [last]);
    assert [last][1..] == [];
    assert Flatten([last]) == last + Flatten([]);
    assert last + [] == last;
  }

  lemma DrainKeepsMessages(q: Queue)
    ensures Drain(q).1 + Flatten(Drain(q).0.batches) == Flatten(q.batches)
  {
    hide Drain, Flatten;
    DrainIsPrefix(q);
    var n := |q.batches| - |Drain(q).0.batches|;
    FlattenAppend(q.batches[..n], q.batches[n..]);
    assert q.batches[..n] + q.batches[n..] == q.batches;
  }

  lemma {:induction false} RemovalSplits(batches: seq<seq<AgentMessage>>, p: AgentMessage -> bool)
    ensures multiset(Flatten(batches)) == multiset(Flatten(Retained(batches, p))) + multiset(Removed(batches, p))
  {
    hide AnyOf;
    if batches != [] {
      var (first, kept) := (batches[0], Retained(batches[1..], p));
      RemovalSplits(batches[1..], p);
      assert ([first] + kept)[1..] == kept;
      assert Flatten([first] + kept) == first + Flatten(kept);
      if AnyOf(first, p) {
        assert [] + kept == kept;
      } else {
        assert [] + Removed(batches[1..], p) == Removed(batches[1..], p);
      }
    }
  }

  /** Exactly the batches without a match stay. */
  lemma {:induction false} RetainedExactly(batches: seq<seq<AgentMessage>>, p: AgentMessage -> bool,
                                           b: seq<AgentMessage>)
    ensures b in Retained(batches, p) <==> b in batches && forall m :: m in b ==> !p(m)
  {
    if batches != [] {
      RetainedExactly(batches[1..], p, b);
      assert batches == [batches[0]] + batches[1..];
      assert AnyOf(batches[0], p) <==> !forall m :: m in batches[0] ==> !p(m) by {
        if AnyOf(batches[0], p) {
          var i :| 0 <= i < |batches[0]| && p(batches[0][i]);
          assert batches[0][i] in batches[0];
        }
      }
      hide AnyOf;
    }
  }

  lemma {:induction false} RetainedIsWhole(batches: seq<seq<AgentMessage>>, p: AgentMessage -> bool)
    ensures NoneEmpty(batches) ==> NoneEmpty(Retained(batches, p))
  {
    hide AnyOf;
    if batches != [] {
      RetainedIsWhole(batches[1..], p);
      assert NoneEmpty(batches) ==> NoneEmpty(batches[1..]) && batches[0] != [];
    }
  }

  // ---------------------------------------------------------------------
  // Conservation over any sequence of operations
  // ---------------------------------------------------------------------

  datatype Op =
    | DoEnqueue(batch: Batch)
    | DoDrain
    | DoRemove(p: AgentMessage -> bool)
    | DoClear
    | DoMode(mode: QueueMode)

  /** A queue with its history. Every enqueued batch gets the next ticket;
      `queued` names the batches in the queue, `drained` those that left by
      draining, in order; `delivered` and `taken` are the messages returned by
      all drains and by all removals. */
  datatype Traced = Traced(
    q: Queue,
    log: seq<seq<AgentMessage>>,
    queued: seq<nat>,
    drained: seq<nat>,
    removed: seq<nat>,
    cleared: seq<nat>,
    delivered: seq<AgentMessage>,
    taken: seq<AgentMessage>)

  function Start(mode: QueueMode): Traced {
    Traced(Queue(mode, []), [], [], [], [], [], [], [])
  }

  /** Tickets of the batches that a predicate keeps or takes. */
  function Sift(batches: seq<seq<AgentMessage>>, tickets: seq<nat>, p: AgentMessage -> bool, keep: bool): seq<nat>
    requires |batches| == |tickets|
  {
    if batches == [] then []
    else (if AnyOf(batches[0], p) == keep then [] else [tickets[0]]) + Sift(batches[1..], tickets[1..], p, keep)
  }

  function Apply(t: Traced, op: Op): Traced
    requires |t.q.batches| == |t.queued|
  {
    match op
    case DoEnqueue(b) =>
      var q := Enqueue(t.q, b);
      if Contents(b) == [] then t.(q := q)
      else t.(q := q, log := t.log + [Contents(b)], queued := t.queued + [|t.log|])
    case DoDrain =>
      var (q, out) := Drain(t.q);
      var n := |t.queued| - |q.batches|;
      t.(q := q, delivered := t.delivered + out, drained := t.drained + t.queued[..n], queued := t.queued[n..])
    case DoRemove(p) =>
      t.(q := t.q.(batches := Retained(t.q.batches, p)),
         queued := Sift(t.q.batches, t.queued, p, true),
         removed := t.removed + Sift(t.q.batches, t.queued, p, false),
         taken := t.taken + Removed(t.q.batches, p))
    case DoClear => t.(q := t.q.(batches := []), cleared := t.cleared + t.queued, queued := [])
    case DoMode(m) => t.(q := t.q.(mode := m))
  }

  predicate Increasing(s: seq<nat>) {
    forall i, j :: 0 <= i < j < |s| ==> s[i] < s[j]
  }

  function Select(log: seq<seq<AgentMessage>>, tickets: seq<nat>): seq<seq<AgentMessage>>
    requires forall i :: 0 <= i < |tickets| ==> tickets[i] < |log|
  {
    seq(|tickets|, i requires 0 <= i < |tickets| => log[tickets[i]])
  }

  function Count(s: seq<nat>, k: nat): nat {
    multiset(s)[k]
  }

  /** How often a ticket appears in the four fates. */
  function Fates(t: Traced, ticket: nat): nat {
    Count(t.queued, ticket) + Count(t.drained, ticket) + Count(t.removed, ticket) + Count(t.cleared, ticket)
  }

  /** Every batch ever enqueued has exactly one fate. */
  ghost predicate Conserved(t: Traced) {
    forall k: nat :: Fates(t, k) == if k < |t.log| then 1 else 0
  }

  /** The queue holds whole non-empty batches in the order they came, and what
      was delivered is the drained batches in the order they came. */
  predicate Fifo(t: Traced) {
    && Increasing(t.drained + t.queued)
    && (forall i :: 0 <= i < |t.drained + t.queued| ==> (t.drained + t.queued)[i] < |t.log|)
    && (forall i :: 0 <= i < |t.queued| ==> t.queued[i] < |t.log|)
    && (forall i :: 0 <= i < |t.drained| ==> t.drained[i] < |t.log|)
    && (forall i :: 0 <= i < |t.log| ==> t.log[i] != [])
    && t.q.batches == Select(t.log, t.queued)
    && t.delivered == Flatten(Select(t.log, t.drained))
  }

  /** What the removals returned is the removed batches, whole and in the
      order they were removed. */
  predicate TakenWhole(t: Traced) {
    && (forall i :: 0 <= i < |t.removed| ==> t.removed[i] < |t.log|)
    && t.taken == Flatten(Select(t.log, t.removed))
  }

  ghost predicate Inv(t: Traced) {
    |t.q.batches| == |t.queued| && Conserved(t) && Fifo(t) && TakenWhole(t)
  }

  lemma {:induction false} FlattenAppend(a: seq<seq<AgentMessage>>, b: seq<seq<AgentMessage>>)
    ensures Flatten(a + b) == Flatten(a) + Flatten(b)
  {
    if a == [] {
      assert a + b == b;
    } else {
      assert (a + b)[1..] == a[1..] + b;
      FlattenAppend(a[1..], b);
    }
  }

  /** Sifting splits the tickets and keeps their order. */
  lemma {:induction false} SiftSplits(batches: seq<seq<AgentMessage>>, tickets: seq<nat>, p: AgentMessage -> bool)
    requires |batches| == |tickets|
    ensures multiset(tickets) == multiset(Sift(batches, tickets, p, true)) + multiset(Sift(batches, tickets, p, false))
  {
    hide AnyOf;
    if batches != [] {
      hide Sift;
      var first, rest := tickets[0], tickets[1..];
      SiftSplits(batches[1..], rest, p);
      SiftFirst(batches, tickets, p);
      var kept, taken := Sift(batches[1..], rest, p, true), Sift(batches[1..], rest, p, false);
      assert tickets == [first] + rest;
      OneMore(first, rest, kept, taken);
    }
  }

  lemma OneMore(first: nat, rest: seq<nat>, kept: seq<nat>, taken: seq<nat>)
    requires multiset(rest) == multiset(kept) + multiset(taken)
    ensures multiset([first] + rest) == multiset([first] + kept) + multiset(taken)
    ensures multiset([first] + rest) == multiset(kept) + multiset([first] + taken)
  {
    assert multiset([first] + rest) == multiset{first} + multiset(rest);
    assert multiset([first] + kept) == multiset{first} + multiset(kept);
    assert multiset([first] + taken) == multiset{first} + multiset(taken);
  }

  lemma SiftFirst(batches: seq<seq<AgentMessage>>, tickets: seq<nat>, p: AgentMessage -> bool)
    requires |batches| == |tickets| && batches != []
    ensures var kept, taken := Sift(batches[1..], tickets[1..], p, true), Sift(batches[1..], tickets[1..], p, false);
            && (AnyOf(batches[0], p) ==>
                  Sift(batches, tickets, p, true) == kept && Sift(batches, tickets, p, false) == [tickets[0]] + taken)
            && (!AnyOf(batches[0], p) ==>
                  Sift(batches, tickets, p, true) == [tickets[0]] + kept && Sift(batches, tickets, p, false) == taken)
  {
    hide AnyOf;
  }

  lemma {:induction false} SiftMembers(batches: seq<seq<AgentMessage>>, tickets: seq<nat>, p: AgentMessage -> bool,
                                       keep: bool)
    requires |batches| == |tickets|
    ensures forall x :: x in Sift(batches, tickets, p, keep) ==> x in tickets
  {
    hide AnyOf;
    if batches != [] {
      SiftMembers(batches[1..], tickets[1..], p, keep);
    }
  }

  lemma {:induction false} SiftKeepsOrder(batches: seq<seq<AgentMessage>>, tickets: seq<nat>, p: AgentMessage -> bool,
                                          keep: bool)
    requires |batches| == |tickets| && Increasing(tickets)
    ensures Increasing(Sift(batches, tickets, p, keep))
  {
    hide AnyOf;
    if batches != [] {
      var later := Sift(batches[1..], tickets[1..], p, keep);
      SiftKeepsOrder(batches[1..], tickets[1..], p, keep);
      SiftMembers(batches[1..], tickets[1..], p, keep);
      forall x | x in later
        ensures tickets[0] < x
      {
        assert x in tickets[1..];
      }
      assert forall i :: 0 <= i < |later| ==> later[i] in later;
    }
  }

  lemma SelectCons(log: seq<seq<AgentMessage>>, ticket: nat, tickets: seq<nat>)
    requires ticket < |log| && forall i :: 0 <= i < |tickets| ==> tickets[i] < |log|
    ensures Select(log, [ticket] + tickets) == [log[ticket]] + Select(log, tickets)
  {
  }

  /** The kept tickets name the retained batches. */
  lemma {:induction false} SiftNamesRetained(log: seq<seq<AgentMessage>>, tickets: seq<nat>, p: AgentMessage -> bool)
    requires forall i :: 0 <= i < |tickets| ==> tickets[i] < |log|
    ensures var kept := Sift(Select(log, tickets), tickets, p, true);
            && (forall i :: 0 <= i < |kept| ==> kept[i] < |log|)
            && Retained(Select(log, tickets), p) == Select(log, kept)
  {
    hide AnyOf;
    if tickets != [] {
      var batches := Select(log, tickets);
      assert batches[1..] == Select(log, tickets[1..]);
      SiftNamesRetained(log, tickets[1..], p);
      var kept := Sift(batches[1..], tickets[1..], p, true);
      if AnyOf(batches[0], p) {
        assert [] + kept == kept;
        assert [] + Retained(batches[1..], p) == Retained(batches[1..], p);
      } else {
        SelectCons(log, tickets[0], kept);
      }
    }
  }

  /** The taken tickets name the removed batches, whole. */
  lemma {:induction false} SiftNamesRemoved(log: seq<seq<AgentMessage>>, tickets: seq<nat>, p: AgentMessage -> bool)
    requires forall i :: 0 <= i < |tickets| ==> tickets[i] < |log|
    ensures var taken := Sift(Select(log, tickets), tickets, p, false);
            && (forall i :: 0 <= i < |taken| ==> taken[i] < |log|)
            && Removed(Select(log, tickets), p) == Flatten(Select(log, taken))
  {
    hide AnyOf;
    if tickets != [] {
      var batches := Select(log, tickets);
      assert batches[1..] == Select(log, tickets[1..]);
      SiftNamesRemoved(log, tickets[1..], p);
      var taken := Sift(batches[1..], tickets[1..], p, false);
      if AnyOf(batches[0], p) {
        SelectCons(log, tickets[0], taken);
        hide Select;
        var later := Select(log, taken);
        assert ([batches[0]] + later)[1..] == later;
        assert Flatten([batches[0]] + later) == batches[0] + Flatten(later);
      } else {
        assert [] + taken == taken;
        assert [] + Removed(batches[1..], p) == Removed(batches[1..], p);
      }
    }
  }

  lemma EnqueueKeepsInv(t: Traced, b: Batch)
    requires Inv(t)
    ensures Inv(Apply(t, DoEnqueue(b)))
  {
    var u := Apply(t, DoEnqueue(b));
    if Contents(b) != [] {
      assert u.drained + u.queued == (t.drained + t.queued) + [|t.log|];
      assert u.q.batches == Select(u.log, u.queued);
      assert Select(u.log, u.drained) == Select(t.log, t.drained);
      assert Select(u.log, u.removed) == Select(t.log, t.removed);
      forall k: nat
        ensures Fates(u, k) == if k < |u.log| then 1 else 0
      {
        assert Fates(u, k) == Fates(t, k) + if k == |t.log| then 1 else 0;
      }
    }
  }

  lemma DrainConserves(t: Traced, u: Traced, n: nat)
    requires Conserved(t) && n <= |t.queued| && u.log == t.log && u.removed == t.removed && u.cleared == t.cleared
    requires u.drained == t.drained + t.queued[..n] && u.queued == t.queued[n..]
    ensures Conserved(u)
  {
    assert t.queued == t.queued[..n] + t.queued[n..];
    forall k: nat
      ensures Fates(u, k) == Fates(t, k)
    {
      assert Count(t.queued, k) == Count(t.queued[..n], k) + Count(t.queued[n..], k);
    }
  }

  lemma DrainKeepsFifo(t: Traced, u: Traced, n: nat)
    requires Fifo(t) && |t.q.batches| == |t.queued| && n <= |t.queued| && u.log == t.log
    requires u.drained == t.drained + t.queued[..n] && u.queued == t.queued[n..]
    requires u.q.batches == t.q.batches[n..] && u.delivered == t.delivered + Flatten(t.q.batches[..n])
    ensures Fifo(u)
  {
    hide Flatten;
    var gone := t.queued[..n];
    assert u.drained + u.queued == t.drained + t.queued;
    assert t.q.batches[n..] == Select(t.log, u.queued);
    assert t.q.batches[..n] == Select(t.log, gone);
    assert Select(t.log, u.drained) == Select(t.log, t.drained) + Select(t.log, gone);
    FlattenAppend(Select(t.log, t.drained), Select(t.log, gone));
  }

  lemma DrainKeepsInv(t: Traced)
    requires Inv(t)
    ensures Inv(Apply(t, DoDrain))
  {
    hide Drain, Flatten, Fifo, Conserved, TakenWhole;
    var u := Apply(t, DoDrain);
    var n := |t.queued| - |u.q.batches|;
    DrainIsPrefix(t.q);
    DrainConserves(t, u, n);
    DrainKeepsFifo(t, u, n);
    SameTaken(t, u);
  }

  lemma SameTaken(t: Traced, u: Traced)
    requires TakenWhole(t) && u.log == t.log && u.removed == t.removed && u.taken == t.taken
    ensures TakenWhole(u)
  {
  }

  /** A drain takes whole batches from the front. */
  lemma DrainIsPrefix(q: Queue)
    ensures var (rest, out) := Drain(q);
            var n := |q.batches| - |rest.batches|;
            0 <= n <= |q.batches| && rest.batches == q.batches[n..] && out == Flatten(q.batches[..n])
  {
    if q.mode == All {
      assert q.batches[..|q.batches|] == q.batches;
    } else if q.batches != [] {
      assert q.batches[..1] == [q.batches[0]];
      assert [q.batches[0]][1..] == [];
      assert Flatten([q.batches[0]]) == q.batches[0] + Flatten([]);
    }
  }

  /** Thinning the queue keeps the drained tickets before the queued ones. */
  lemma ThinnedOrder(drained: seq<nat>, queued: seq<nat>, kept: seq<nat>)
    requires Increasing(drained + queued) && Increasing(kept) && forall x :: x in kept ==> x in queued
    ensures Increasing(drained + kept)
  {
    forall i, j | 0 <= i < j < |drained + kept|
      ensures (drained + kept)[i] < (drained + kept)[j]
    {
      if i < |drained| <= j {
        var x := kept[j - |drained|];
        assert x in queued;
        var m :| 0 <= m < |queued| && queued[m] == x;
        assert (drained + queued)[i] < (drained + queued)[|drained| + m];
      } else if j < |drained| {
        assert (drained + queued)[i] < (drained + queued)[j];
      }
    }
  }

  lemma QueuedIsIncreasing(drained: seq<nat>, queued: seq<nat>)
    requires Increasing(drained + queued)
    ensures Increasing(queued) && Increasing(drained)
  {
    assert forall i :: 0 <= i < |queued| ==> queued[i] == (drained + queued)[|drained| + i];
    assert forall i :: 0 <= i < |drained| ==> drained[i] == (drained + queued)[i];
  }

  lemma RemoveKeepsTaken(t: Traced, p: AgentMessage -> bool)
    requires Inv(t)
    ensures TakenWhole(Apply(t, DoRemove(p)))
  {
    var taken := Sift(t.q.batches, t.queued, p, false);
    SiftNamesRemoved(t.log, t.queued, p);
    hide Sift, Removed, Flatten, Conserved;
    assert Select(t.log, t.removed + taken) == Select(t.log, t.removed) + Select(t.log, taken);
    FlattenAppend(Select(t.log, t.removed), Select(t.log, taken));
  }

  lemma RemoveKeepsInv(t: Traced, p: AgentMessage -> bool)
    requires Inv(t)
    ensures Inv(Apply(t, DoRemove(p)))
  {
    var u := Apply(t, DoRemove(p));
    QueuedIsIncreasing(t.drained, t.queued);
    SiftSplits(t.q.batches, t.queued, p);
    SiftMembers(t.q.batches, t.queued, p, true);
    SiftKeepsOrder(t.q.batches, t.queued, p, true);
    ThinnedOrder(t.drained, t.queued, u.queued);
    SiftNamesRetained(t.log, t.queued, p);
    RemoveKeepsTaken(t, p);
    hide Sift, Retained, Flatten, Increasing, AnyOf;
    assert |u.q.batches| == |u.queued|;
    assert Conserved(u) by {
      var taken := Sift(t.q.batches, t.queued, p, false);
      forall k: nat
        ensures Fates(u, k) == Fates(t, k)
      {
        assert Count(t.queued, k) == Count(u.queued, k) + Count(taken, k);
      }
    }
  }

  lemma ClearKeepsInv(t: Traced)
    requires Inv(t)
    ensures Inv(Apply(t, DoClear))
  {
    var u := Apply(t, DoClear);
    forall k: nat
      ensures Fates(u, k) == Fates(t, k)
    {
    }
    assert u.drained + u.queued == u.drained;
    assert Increasing(u.drained) by {
      assert forall i :: 0 <= i < |t.drained| ==> t.drained[i] == (t.drained + t.queued)[i];
    }
    assert u.q.batches == Select(u.log, u.queued);
  }

  lemma ApplyKeepsInv(t: Traced, op: Op)
    requires Inv(t)
    ensures Inv(Apply(t, op))
  {
    match op
    case DoEnqueue(b) => EnqueueKeepsInv(t, b);
    case DoDrain => DrainKeepsInv(t);
    case DoRemove(p) => RemoveKeepsInv(t, p);
    case DoClear => ClearKeepsInv(t);
    case DoMode(m) =>
      forall k: nat
        ensures Fates(Apply(t, op), k) == Fates(t, k)
      {
      }
  }

  ghost function RunOps(t: Traced, ops: seq<Op>): (u: Traced)
    requires Inv(t)
    ensures Inv(u)
    decreases ops
  {
    if ops == [] then t
    else
      ApplyKeepsInv(t, ops[0]);
      RunOps(Apply(t, ops[0]), ops[1..])
  }

  /** Over any sequence of operations on a new queue, in either mode: every
      enqueued batch is exactly one of queued, drained, removed and cleared;
      batches leave whole and in the order they came, whether drained or
      removed; no queued batch is empty. */
  lemma QueueConservesMessages(mode: QueueMode, ops: seq<Op>)
    ensures Inv(Start(mode)) && Inv(RunOps(Start(mode), ops))
    ensures forall i :: 0 <= i < |RunOps(Start(mode), ops).q.batches| ==> RunOps(Start(mode), ops).q.batches[i] != []
  {
    assert Select([], []) == [];
    assert forall k: nat :: Fates(Start(mode), k) == 0;
    var u := RunOps(Start(mode), ops);
    assert Inv(u);
  }

  /** So a drain comes back empty only from an empty queue. */
  lemma EmptyDrainMeansEmptyQueue(q: Queue)
    requires forall i :: 0 <= i < |q.batches| ==> q.batches[i] != []
    ensures Drain(q).1 == [] <==> q.batches == []
  {
    if q.batches != [] {
      assert Flatten(q.batches) == q.batches[0] + Flatten(q.batches[1..]);
    }
  }
}
