/** What every interleaving of the bus keeps: every accepted message is in exactly one place. */
module MessagingSafety {
  import opened Wrappers
  import opened Seqs
  import opened MessagingBus

  // ---- runs ---------------------------------------------------------------------------------

  ghost predicate Possible(hash: string -> nat, bus: Bus, steps: seq<Step>)
    decreases |steps|
  {
    steps == [] || (Enabled(bus, steps[0]) && Possible(hash, Apply(hash, bus, steps[0]), steps[1..]))
  }

  ghost function After(hash: string -> nat, bus: Bus, steps: seq<Step>): Bus
    requires Possible(hash, bus, steps)
    decreases |steps|
  {
    if steps == [] then bus else After(hash, Apply(hash, bus, steps[0]), steps[1..])
  }

  // ---- picking ------------------------------------------------------------------------------

  lemma {:induction false} LiveOnes(listeners: seq<Listener>, ids: seq<nat>)
    ensures forall i :: 0 <= i < |Live(listeners, ids)| ==> Live(listeners, ids)[i] in ids
    ensures forall i :: 0 <= i < |Live(listeners, ids)| ==>
            Live(listeners, ids)[i] < |listeners| && listeners[Live(listeners, ids)[i]].alive
    ensures forall i :: 0 <= i < |ids| && ids[i] < |listeners| && listeners[ids[i]].alive ==>
            ids[i] in Live(listeners, ids)
  {
    if ids != [] {
      LiveOnes(listeners, ids[1..]);
      HeadTail(ids);
    }
  }

  /** A listener is chosen exactly when the destination has a live one, and it is one of those. */
  lemma PickChoosesLive(hash: string -> nat, listeners: seq<Listener>, state: DestState, key: Option<string>)
    ensures var (after, l) := Pick(hash, listeners, state, key);
            && (l.Some? <==> exists i :: 0 <= i < |state.listeners| && IsOpen(listeners, state.listeners[i]))
            && (l.Some? ==> l.value < |listeners| && listeners[l.value].alive && l.value in after.listeners)
            && (forall i :: 0 <= i < |after.listeners| ==> after.listeners[i] in state.listeners)
  {
    LiveOnes(listeners, state.listeners);
    var live := Live(listeners, state.listeners);
    if live != [] {
      assert live[0] in state.listeners;
    }
  }

  // ---- the invariant ------------------------------------------------------------------------

  function TokenList(ms: seq<Message>): seq<nat> {
    seq(|ms|, i requires 0 <= i < |ms| => ms[i].token)
  }

  predicate ListenerOk(l: Listener) {
    && (!l.alive ==> l.buffer == [] && l.hand == [])
    && l.opts.capacity > 0 && |l.buffer| <= l.opts.capacity && |l.hand| <= 1
    && l.queued == l.begun + TokenList(l.hand) + TokenList(l.buffer)
    && match l.opts.concurrency
       case None => |l.hand| + |l.jobs| <= 1
       case Some(n) => |l.jobs| <= if n == 0 then 1 else n
  }

  predicate IsOpen(listeners: seq<Listener>, l: nat) {
    l < |listeners| && listeners[l].alive
  }

  /** Whoever holds a sender holds it for a consumer that is still there. */
  predicate SendersServed(bus: Bus) {
    && (forall d, i :: d in bus.dests && 0 <= i < |bus.dests[d].listeners| ==>
          IsOpen(bus.listeners, bus.dests[d].listeners[i]) && bus.listeners[bus.dests[d].listeners[i]].dest == d)
    && (forall i :: 0 <= i < |bus.waiting| ==>
          && IsOpen(bus.listeners, bus.waiting[i].listener)
          && bus.listeners[bus.waiting[i].listener].dest == bus.waiting[i].dest
          && (bus.waiting[i].client || bus.waiting[i].blocking))
  }

  predicate Inv(bus: Bus) {
    && (forall i :: 0 <= i < |bus.listeners| ==> ListenerOk(bus.listeners[i]))
    && SendersServed(bus)
    && (forall i :: 0 <= i < |bus.dropped| ==> bus.dropped[i].reason != Closed)
  }

  lemma PickKeepsServed(hash: string -> nat, bus: Bus, dest: string, key: Option<string>)
    requires SendersServed(bus)
    ensures var (picked, l) := PickAt(hash, bus, dest, key);
            && SendersServed(picked)
            && picked.(dests := bus.dests) == bus
            && (l.Some? ==> IsOpen(bus.listeners, l.value) && bus.listeners[l.value].dest == dest)
  {
    if dest in bus.dests { PickChoosesLive(hash, bus.listeners, bus.dests[dest], key); }
  }

  /** Replacing a listener by one with the same destination, as alive as before, keeps senders served. */
  lemma ServedUpdate(bus: Bus, l: nat, li: Listener)
    requires SendersServed(bus) && l < |bus.listeners|
    requires li.dest == bus.listeners[l].dest && li.alive == bus.listeners[l].alive
    ensures SendersServed(bus.(listeners := bus.listeners[l := li]))
  {}

  lemma TokenListAppend(ms: seq<Message>, m: Message)
    ensures TokenList(ms + [m]) == TokenList(ms) + [m.token]
  {}

  lemma EnqueueOk(l: Listener, msg: Message)
    requires ListenerOk(l) && l.alive && HasRoom(l)
    ensures ListenerOk(Enqueue(l, msg))
  {
    TokenListAppend(l.buffer, msg);
    Assoc(l.begun + TokenList(l.hand), TokenList(l.buffer), [msg.token]);
  }

  lemma ReceiveOk(l: Listener)
    requires ListenerOk(l) && MayReceive(l)
    ensures ListenerOk(l.(buffer := l.buffer[1..], hand := [l.buffer[0]]))
  {
    assert TokenList(l.buffer) == [l.buffer[0].token] + TokenList(l.buffer[1..]);
    assert TokenList([l.buffer[0]]) == [l.buffer[0].token];
    assert TokenList(l.hand) == [];
    assert l.begun + [] == l.begun;
    Assoc(l.begun, [l.buffer[0].token], TokenList(l.buffer[1..]));
  }

  lemma BeginOk(l: Listener)
    requires ListenerOk(l) && MayBegin(l)
    ensures ListenerOk(l.(hand := [], jobs := l.jobs + l.hand, begun := l.begun + [l.hand[0].token]))
  {
    assert TokenList(l.hand) == [l.hand[0].token];
    assert l.begun + [l.hand[0].token] + [] == l.begun + [l.hand[0].token];
  }

  lemma StepKeepsInv(hash: string -> nat, bus: Bus, step: Step)
    requires Inv(bus) && Enabled(bus, step)
    ensures Inv(Apply(hash, bus, step))
  {
    match step
    case AddListener(dest, opts) => AddListenerKeepsInv(hash, bus, dest, opts);
    case Send(dest, key, msg, blocking) => SendKeepsInv(hash, bus, dest, key, msg, blocking);
    case Deliver(w) => DeliverKeepsInv(hash, bus, w);
    case Cancel(_) =>
    case Receive(l) =>
      var li := bus.listeners[l];
      ReceiveOk(li);
      ListenerKeepsInv(bus, l, li.(buffer := li.buffer[1..], hand := [li.buffer[0]]));
    case Begin(l) =>
      var li := bus.listeners[l];
      BeginOk(li);
      ListenerKeepsInv(bus, l, li.(hand := [], jobs := li.jobs + li.hand, begun := li.begun + [li.hand[0].token]));
    case Finish(l, j, ack) => FinishKeepsInv(hash, bus, l, j, ack);
    case PickSend(u) => PickSendKeepsInv(hash, bus, u);
    case Exit(l) => ExitKeepsInv(hash, bus, l);
    case Stop =>
  }

  lemma ListenerKeepsInv(bus: Bus, l: nat, li: Listener)
    requires Inv(bus) && l < |bus.listeners| && ListenerOk(li)
    requires li.dest == bus.listeners[l].dest && li.alive == bus.listeners[l].alive
    ensures Inv(bus.(listeners := bus.listeners[l := li]))
  {
    ServedUpdate(bus, l, li);
  }

  lemma SendKeepsInv(hash: string -> nat, bus: Bus, dest: string, key: Option<string>, msg: Message, blocking: bool)
    requires Inv(bus)
    ensures Inv(ApplySend(hash, bus, dest, key, msg, blocking))
  {
    PickKeepsServed(hash, bus, dest, if key.Some? then key else msg.key);
  }

  lemma PickSendKeepsInv(hash: string -> nat, bus: Bus, u: nat)
    requires Inv(bus) && u < |bus.unsent|
    ensures Inv(ApplyPickSend(hash, bus, u))
  {
    PickKeepsServed(hash, bus, bus.unsent[u].dest, bus.unsent[u].msg.key);
  }

  lemma AddListenerKeepsInv(hash: string -> nat, bus: Bus, dest: string, opts: Options)
    requires Inv(bus) && opts.capacity > 0
    ensures Inv(Apply(hash, bus, AddListener(dest, opts)))
  {
    var next := Apply(hash, bus, AddListener(dest, opts));
    assert TokenList([]) == [];
    assert ListenerOk(next.listeners[|bus.listeners|]);
    assert forall i: nat :: IsOpen(bus.listeners, i) ==>
        IsOpen(next.listeners, i) && next.listeners[i].dest == bus.listeners[i].dest;
  }

  lemma DeliverKeepsInv(hash: string -> nat, bus: Bus, w: nat)
    requires Inv(bus) && Enabled(bus, Deliver(w))
    ensures Inv(Apply(hash, bus, Deliver(w)))
  {
    var wait := bus.waiting[w];
    var li := bus.listeners[wait.listener];
    assert IsOpen(bus.listeners, wait.listener);
    if HasRoom(li) {
      EnqueueOk(li, wait.msg);
      ServedUpdate(bus, wait.listener, Enqueue(li, wait.msg));
    }
  }

  lemma FinishKeepsInv(hash: string -> nat, bus: Bus, l: nat, j: nat, ack: Ack)
    requires Inv(bus) && Enabled(bus, Finish(l, j, ack))
    ensures Inv(Apply(hash, bus, Finish(l, j, ack)))
  {
    var li := bus.listeners[l];
    ServedUpdate(bus, l, li.(jobs := Without(li.jobs, j)));
    assert |Without(li.jobs, j)| == |li.jobs| - 1;
  }

  lemma ExitKeepsInv(hash: string -> nat, bus: Bus, l: nat)
    requires Inv(bus) && Enabled(bus, Exit(l))
    ensures Inv(Apply(hash, bus, Exit(l)))
  {
    var next := Apply(hash, bus, Exit(l));
    forall d, i | d in bus.dests && 0 <= i < |bus.dests[d].listeners|
      ensures bus.dests[d].listeners[i] != l
    {
      assert bus.dests[d].listeners[i] in bus.dests[d].listeners;
    }
    assert forall i: nat :: i != l && IsOpen(bus.listeners, i) ==> IsOpen(next.listeners, i);
  }

  // ---- conservation ---------------------------------------------------------------------------

  /** Message `t` is there as often as it was accepted. */
  predicate Accounted(bus: Bus, t: nat) {
    Copies(bus, t) == bus.accepted[t]
  }

  lemma EnqueueAdds(l: Listener, msg: Message, t: nat)
    ensures Holds(Enqueue(l, msg), t) == Holds(l, t) + OfMessage(t)(msg)
  {
    SumAppend(l.buffer, msg, OfMessage(t));
  }

  lemma ListenerChange(listeners: seq<Listener>, l: nat, li: Listener, t: nat)
    requires l < |listeners|
    ensures Sum(listeners[l := li], OfListener(t)) + Holds(listeners[l], t) ==
            Sum(listeners, OfListener(t)) + Holds(li, t)
  {
    SumUpdate(listeners, l, li, OfListener(t));
  }

  lemma EnqueueConserves(bus: Bus, rest: Bus, l: nat, msg: Message, client: bool, t: nat)
    requires l < |bus.listeners| && rest == bus.(waiting := rest.waiting) && Accounted(bus, t)
    requires Sum(bus.waiting, OfWaiting(t)) ==
             Sum(rest.waiting, OfWaiting(t)) + (if !client && msg.token == t then 1 else 0)
    ensures Accounted(rest.(listeners := bus.listeners[l := Enqueue(bus.listeners[l], msg)],
                            accepted := if client then rest.accepted + multiset{msg.token} else rest.accepted), t)
  {
    EnqueueAdds(bus.listeners[l], msg, t);
    ListenerChange(bus.listeners, l, Enqueue(bus.listeners[l], msg), t);
  }

  lemma DeliverConserves(bus: Bus, w: nat, t: nat)
    requires w < |bus.waiting| && bus.waiting[w].listener < |bus.listeners| && Accounted(bus, t)
    ensures Accounted(ApplyDeliver(bus, w), t)
  {
    var wait := bus.waiting[w];
    SumWithout(bus.waiting, w, OfWaiting(t));
    if bus.listeners[wait.listener].alive {
      EnqueueConserves(bus, bus.(waiting := Without(bus.waiting, w)), wait.listener, wait.msg, wait.client, t);
    } else {
      SumAppend(bus.dropped, Drop(wait.msg, Closed), OfDrop(t));
    }
  }

  lemma PickSendConserves(hash: string -> nat, bus: Bus, u: nat, t: nat)
    requires u < |bus.unsent| && Accounted(bus, t)
    ensures Accounted(ApplyPickSend(hash, bus, u), t)
  {
    var send := bus.unsent[u];
    var (_, l) := PickAt(hash, bus, send.dest, send.msg.key);
    SumWithout(bus.unsent, u, OfUnsent(t));
    SumAppend(bus.dropped, Drop(send.msg, NoListeners), OfDrop(t));
    if l.Some? { SumAppend(bus.waiting, Waiting(send.msg, l.value, send.dest, false, true), OfWaiting(t)); }
  }

  /** `process` puts the message somewhere, once. */
  lemma AfterHandlerAdds(bus: Bus, l: Listener, msg: Message, ack: Ack, t: nat)
    ensures Copies(AfterHandler(bus, l, msg, ack), t) == Copies(bus, t) + OfMessage(t)(msg)
    ensures AfterHandler(bus, l, msg, ack).accepted == bus.accepted
  {
    match ack
    case Accept => SumAppend(bus.acked, msg, OfMessage(t));
    case Reject => SumAppend(bus.rejected, msg, OfMessage(t));
    case Retry =>
      if msg.count < l.opts.limit {
        UnsentAdds(bus, Unsent(msg, DestName(Address(l.dest))), t);
      } else if l.opts.deadLetter.Some? {
        UnsentAdds(bus, Unsent(msg, DestName(l.opts.deadLetter.value)), t);
      } else {
        SumAppend(bus.dropped, Drop(msg, Exhausted), OfDrop(t));
      }
  }

  lemma UnsentAdds(bus: Bus, u: Unsent, t: nat)
    ensures Copies(bus.(unsent := bus.unsent + [u]), t) == Copies(bus, t) + OfMessage(t)(u.msg)
  {
    SumAppend(bus.unsent, u, OfUnsent(t));
  }

  lemma FinishConserves(hash: string -> nat, bus: Bus, l: nat, j: nat, ack: Ack, t: nat)
    requires Enabled(bus, Finish(l, j, ack)) && Accounted(bus, t)
    ensures Accounted(Apply(hash, bus, Finish(l, j, ack)), t)
  {
    var li := bus.listeners[l];
    var less := li.(jobs := Without(li.jobs, j));
    SumWithout(li.jobs, j, OfMessage(t));
    ListenerChange(bus.listeners, l, less, t);
    AfterHandlerAdds(bus.(listeners := bus.listeners[l := less]), li, Handled(li, li.jobs[j], ack), ack, t);
  }

  lemma ReceiveConserves(hash: string -> nat, bus: Bus, l: nat, t: nat)
    requires Enabled(bus, Receive(l)) && Accounted(bus, t)
    ensures Accounted(Apply(hash, bus, Receive(l)), t)
  {
    var li := bus.listeners[l];
    HeadTail(li.buffer);
    SumConcat([li.buffer[0]], li.buffer[1..], OfMessage(t));
    ListenerChange(bus.listeners, l, li.(buffer := li.buffer[1..], hand := [li.buffer[0]]), t);
  }

  lemma BeginConserves(hash: string -> nat, bus: Bus, l: nat, t: nat)
    requires Enabled(bus, Begin(l)) && Accounted(bus, t)
    ensures Accounted(Apply(hash, bus, Begin(l)), t)
  {
    var li := bus.listeners[l];
    SumConcat(li.jobs, li.hand, OfMessage(t));
    ListenerChange(bus.listeners, l,
                   li.(hand := [], jobs := li.jobs + li.hand, begun := li.begun + [li.hand[0].token]), t);
  }

  lemma AddListenerConserves(hash: string -> nat, bus: Bus, dest: string, opts: Options, t: nat)
    requires Enabled(bus, AddListener(dest, opts)) && Accounted(bus, t)
    ensures Accounted(Apply(hash, bus, AddListener(dest, opts)), t)
  {
    SumAppend(bus.listeners, Listener(dest, opts, [], [], [], true, [], []), OfListener(t));
  }

  lemma SendConserves(hash: string -> nat, bus: Bus, dest: string, key: Option<string>, msg: Message, blocking: bool,
                      t: nat)
    requires Accounted(bus, t)
    ensures Accounted(ApplySend(hash, bus, dest, key, msg, blocking), t)
  {
    var (picked, l) := PickAt(hash, bus, dest, if key.Some? then key else msg.key);
    if l.Some? { SumAppend(picked.waiting, Waiting(msg, l.value, dest, true, blocking), OfWaiting(t)); }
  }

  lemma StepConserves(hash: string -> nat, bus: Bus, step: Step, t: nat)
    requires Enabled(bus, step) && Accounted(bus, t)
    ensures Accounted(Apply(hash, bus, step), t)
  {
    match step
    case AddListener(dest, opts) => AddListenerConserves(hash, bus, dest, opts, t);
    case Send(dest, key, msg, blocking) => SendConserves(hash, bus, dest, key, msg, blocking, t);
    case Deliver(w) => DeliverConserves(bus, w, t);
    case Cancel(w) => SumWithout(bus.waiting, w, OfWaiting(t));
    case Receive(l) => ReceiveConserves(hash, bus, l, t);
    case Begin(l) => BeginConserves(hash, bus, l, t);
    case Finish(l, j, ack) => FinishConserves(hash, bus, l, j, ack, t);
    case PickSend(u) => PickSendConserves(hash, bus, u, t);
    case Exit(l) => ListenerChange(bus.listeners, l, bus.listeners[l].(alive := false), t);
    case Stop =>
  }

  /** In every interleaving of any number of sends, handlers, requeues, dead letters and stops, each
      accepted message is in one place: a buffer, a consumer's hand, a handler, a pending detached send, or
      settled as acknowledged, rejected or dropped. No send ever meets a closed channel. */
  lemma {:induction false} Conserved(hash: string -> nat, bus: Bus, steps: seq<Step>, t: nat)
    requires Inv(bus) && Accounted(bus, t) && Possible(hash, bus, steps)
    ensures Inv(After(hash, bus, steps)) && Accounted(After(hash, bus, steps), t)
    decreases |steps|
  {
    if steps != [] {
      StepKeepsInv(hash, bus, steps[0]);
      StepConserves(hash, bus, steps[0], t);
      Conserved(hash, Apply(hash, bus, steps[0]), steps[1..], t);
    }
  }

  lemma EmptyBusIsOk(t: nat)
    ensures Inv(EMPTY) && Accounted(EMPTY, t)
  {}

  // ---- no deadlock ----------------------------------------------------------------------------

  /** The bus's own tasks can do something. */
  predicate Moving(bus: Bus) {
    || bus.unsent != []
    || (exists w :: 0 <= w < |bus.waiting| && Enabled(bus, Deliver(w)))
    || (exists l :: 0 <= l < |bus.listeners| && Busy(bus.listeners[l]))
  }

  predicate Busy(l: Listener) {
    MayReceive(l) || MayBegin(l) || l.jobs != []
  }

  lemma {:induction false} NothingHeld(ls: seq<Listener>, t: nat)
    requires forall i :: 0 <= i < |ls| ==> ls[i].buffer == [] && ls[i].hand == [] && ls[i].jobs == []
    ensures Sum(ls, OfListener(t)) == 0
  {
    if ls != [] { NothingHeld(ls[1..], t); }
  }

  /** How many handlers of a listener may run at once: one after the other, or as many as its options say. */
  function Handlers(opts: Options): nat {
    match opts.concurrency case None => 1 case Some(n) => if n == 0 then 1 else n
  }

  /** A listener with something to do and a handler to spare goes on; one with all its handlers at work does not. */
  lemma SpareHandlerMoves(l: Listener)
    requires ListenerOk(l) && l.alive && (l.buffer != [] || l.hand != [])
    ensures |l.jobs| < Handlers(l.opts) ==> MayReceive(l) || MayBegin(l)
    ensures MayBegin(l) ==> |l.jobs| < Handlers(l.opts)
  {}

  /** A send waits only if it may block and the buffer of its listener is full; otherwise it goes ahead, to the buffer
      or, if it may not block, perhaps to an error. */
  lemma SendWaitsIff(bus: Bus, w: nat)
    requires Inv(bus) && w < |bus.waiting|
    ensures bus.waiting[w].listener < |bus.listeners|
    ensures var l := bus.listeners[bus.waiting[w].listener];
            !Enabled(bus, Deliver(w)) <==> bus.waiting[w].blocking && |l.buffer| == l.opts.capacity
  {
    var wait := bus.waiting[w];
    assert IsOpen(bus.listeners, wait.listener) && ListenerOk(bus.listeners[wait.listener]);
  }

  /** A send that may not block is accepted exactly if there is room. */
  lemma TrySendAccepts(bus: Bus, w: nat)
    requires Inv(bus) && w < |bus.waiting| && bus.waiting[w].client && !bus.waiting[w].blocking
    ensures bus.waiting[w].listener < |bus.listeners|
    ensures var l := bus.listeners[bus.waiting[w].listener];
            ApplyDeliver(bus, w).accepted != bus.accepted <==> |l.buffer| < l.opts.capacity
  {
    var wait := bus.waiting[w];
    assert IsOpen(bus.listeners, wait.listener);
    assert (bus.accepted + multiset{wait.msg.token})[wait.msg.token] == bus.accepted[wait.msg.token] + 1;
  }

  /** With empty buffers a send that waits can go ahead. */
  lemma WaitingMoves(bus: Bus)
    requires Inv(bus) && bus.waiting != [] && forall l :: 0 <= l < |bus.listeners| ==> bus.listeners[l].buffer == []
    ensures Moving(bus)
  {
    var l := bus.waiting[0].listener;
    assert IsOpen(bus.listeners, l) && ListenerOk(bus.listeners[l]);
    assert Enabled(bus, Deliver(0));
  }

  /** Whenever none of the bus's tasks can move, every accepted message is settled and no caller waits. */
  lemma NoDeadlock(bus: Bus, t: nat)
    requires Inv(bus) && Accounted(bus, t) && !Moving(bus)
    ensures bus.waiting == [] && Settled(bus, t) == bus.accepted[t]
  {
    forall l | 0 <= l < |bus.listeners|
      ensures bus.listeners[l].buffer == [] && bus.listeners[l].hand == [] && bus.listeners[l].jobs == []
    {
      assert ListenerOk(bus.listeners[l]) && !Busy(bus.listeners[l]);
    }
    if bus.waiting != [] { WaitingMoves(bus); }
    NothingHeld(bus.listeners, t);
  }
}
