/** Where a message comes to rest is what its last handler answered. */
module MessagingAnswers {
  import opened Wrappers
  import opened MessagingBus
  import opened MessagingSafety

  // ---- the place and the answer ---------------------------------------------------------------------

  /** The last handler of a message gave this answer. */
  predicate Ended(m: Message, ack: Ack) {
    m.life != [] && m.life[|m.life| - 1].ack == ack
  }

  function LastOf(m: Message): Handling
    requires m.life != []
  {
    m.life[|m.life| - 1]
  }

  function DeadName(opts: Options): Option<string> {
    match opts.deadLetter case Some(addr) => Some(DestName(addr)) case None => None
  }

  /** A listener at which this handling was the last attempt, with this dead letter or none. */
  predicate IsLastAttempt(l: Listener, h: Handling, dead: Option<string>) {
    l.dest == h.dest && DeadName(l.opts) == dead && (h.count + 1) % U32 >= l.opts.limit
  }

  predicate WasLastAttempt(listeners: seq<Listener>, h: Handling, dead: Option<string>) {
    exists l :: 0 <= l < |listeners| && IsLastAttempt(listeners[l], h, dead)
  }

  /** A nacked message on its way: back to its destination if a requeue was announced, else to the dead letter. */
  predicate OnItsWay(listeners: seq<Listener>, m: Message, d: string) {
    && Ended(m, Retry)
    && if LastOf(m).requeue then d == LastOf(m).dest else WasLastAttempt(listeners, LastOf(m), Some(d))
  }

  /** Acknowledged means accepted; rejected means rejected; dropped means nacked, and dropped as exhausted means
      nacked without a requeue by a listener without a dead letter. */
  predicate Placed(bus: Bus) {
    && (forall i :: 0 <= i < |bus.acked| ==> Ended(bus.acked[i], Accept))
    && (forall i :: 0 <= i < |bus.rejected| ==> Ended(bus.rejected[i], Reject))
    && (forall i :: 0 <= i < |bus.dropped| ==> DropPlaced(bus.listeners, bus.dropped[i]))
    && (forall i :: 0 <= i < |bus.unsent| ==> OnItsWay(bus.listeners, bus.unsent[i].msg, bus.unsent[i].dest))
    && (forall i :: 0 <= i < |bus.waiting| ==> WaitPlaced(bus.listeners, bus.waiting[i]))
  }

  predicate DropPlaced(listeners: seq<Listener>, d: Drop) {
    && Ended(d.msg, Retry)
    && (d.reason == Exhausted ==> !LastOf(d.msg).requeue && WasLastAttempt(listeners, LastOf(d.msg), None))
  }

  predicate WaitPlaced(listeners: seq<Listener>, w: Waiting) {
    if w.client then Fresh(w.msg, w.dest) else OnItsWay(listeners, w.msg, w.dest)
  }

  /** Listeners keep their destination and options, and none is forgotten. */
  predicate Keeps(was: seq<Listener>, now: seq<Listener>) {
    |was| <= |now| && forall i :: 0 <= i < |was| ==> now[i].dest == was[i].dest && now[i].opts == was[i].opts
  }

  lemma AttemptStays(was: seq<Listener>, now: seq<Listener>, h: Handling, dead: Option<string>)
    requires Keeps(was, now) && WasLastAttempt(was, h, dead)
    ensures WasLastAttempt(now, h, dead)
  {
    var l :| 0 <= l < |was| && IsLastAttempt(was[l], h, dead);
    assert IsLastAttempt(now[l], h, dead);
  }

  lemma WayStays(was: seq<Listener>, now: seq<Listener>, m: Message, d: string)
    requires Keeps(was, now) && OnItsWay(was, m, d)
    ensures OnItsWay(now, m, d)
  {
    if !LastOf(m).requeue { AttemptStays(was, now, LastOf(m), Some(d)); }
  }

  lemma DropStays(was: seq<Listener>, now: seq<Listener>, d: Drop)
    requires Keeps(was, now) && DropPlaced(was, d)
    ensures DropPlaced(now, d)
  {
    if d.reason == Exhausted { AttemptStays(was, now, LastOf(d.msg), None); }
  }

  lemma WaitStays(was: seq<Listener>, now: seq<Listener>, w: Waiting)
    requires Keeps(was, now) && WaitPlaced(was, w)
    ensures WaitPlaced(now, w)
  {
    if !w.client { WayStays(was, now, w.msg, w.dest); }
  }

  lemma PlacedStays(bus: Bus, now: seq<Listener>)
    requires Placed(bus) && Keeps(bus.listeners, now)
    ensures Placed(bus.(listeners := now))
  {
    forall i | 0 <= i < |bus.dropped| ensures DropPlaced(now, bus.dropped[i]) {
      DropStays(bus.listeners, now, bus.dropped[i]);
    }
    forall i | 0 <= i < |bus.unsent| ensures OnItsWay(now, bus.unsent[i].msg, bus.unsent[i].dest) {
      WayStays(bus.listeners, now, bus.unsent[i].msg, bus.unsent[i].dest);
    }
    forall i | 0 <= i < |bus.waiting| ensures WaitPlaced(now, bus.waiting[i]) {
      WaitStays(bus.listeners, now, bus.waiting[i]);
    }
  }

  // ---- every step ------------------------------------------------------------------------------------

  /** What `process` does with the message that a handler at listener `l` has answered for. */
  lemma AnswerPlaces(bus: Bus, l: nat, msg: Message, ack: Ack)
    requires Placed(bus) && l < |bus.listeners|
    ensures var li := bus.listeners[l]; Placed(AfterHandler(bus, li, Handled(li, msg, ack), ack))
  {
    var li := bus.listeners[l];
    var m := Handled(li, msg, ack);
    assert Ended(m, ack) && LastOf(m).dest == li.dest;
    RequeueAddress(li.dest);
    if ack == Retry && m.count >= li.opts.limit {
      assert IsLastAttempt(bus.listeners[l], LastOf(m), DeadName(li.opts));
    }
  }

  lemma FinishPlaces(hash: string -> nat, bus: Bus, l: nat, j: nat, ack: Ack)
    requires Placed(bus) && Enabled(bus, Finish(l, j, ack))
    ensures Placed(Apply(hash, bus, Finish(l, j, ack)))
  {
    var li := bus.listeners[l];
    var less := li.(jobs := Without(li.jobs, j));
    var now := bus.listeners[l := less];
    PlacedStays(bus, now);
    AnswerPlaces(bus.(listeners := now), l, li.jobs[j], ack);
    SameAnswer(bus.(listeners := now), li, less, li.jobs[j], ack);
  }

  lemma SameAnswer(bus: Bus, a: Listener, b: Listener, msg: Message, ack: Ack)
    requires a.dest == b.dest && a.opts == b.opts
    ensures AfterHandler(bus, a, Handled(a, msg, ack), ack) == AfterHandler(bus, b, Handled(b, msg, ack), ack)
  {}

  lemma DeliverPlaces(bus: Bus, w: nat)
    requires Placed(bus) && w < |bus.waiting| && bus.waiting[w].listener < |bus.listeners|
    ensures Placed(ApplyDeliver(bus, w))
  {
    var wait := bus.waiting[w];
    var now := bus.listeners[wait.listener := Enqueue(bus.listeners[wait.listener], wait.msg)];
    assert WaitPlaced(bus.listeners, wait);
    PlacedStays(bus, now);
  }

  lemma PickSendPlaces(hash: string -> nat, bus: Bus, u: nat)
    requires Placed(bus) && u < |bus.unsent|
    ensures Placed(ApplyPickSend(hash, bus, u))
  {
    assert OnItsWay(bus.listeners, bus.unsent[u].msg, bus.unsent[u].dest);
  }

  lemma SendPlaces(hash: string -> nat, bus: Bus, dest: string, key: Option<string>, msg: Message, blocking: bool)
    requires Placed(bus) && Fresh(msg, dest)
    ensures Placed(ApplySend(hash, bus, dest, key, msg, blocking))
  {}

  lemma StepPlaces(hash: string -> nat, bus: Bus, step: Step)
    requires Placed(bus) && Enabled(bus, step)
    ensures Placed(Apply(hash, bus, step))
  {
    match step
    case Send(dest, key, msg, blocking) => SendPlaces(hash, bus, dest, key, msg, blocking);
    case Deliver(w) => DeliverPlaces(bus, w);
    case Finish(l, j, ack) => FinishPlaces(hash, bus, l, j, ack);
    case PickSend(u) => PickSendPlaces(hash, bus, u);
    case Cancel(_) =>
    case Stop =>
    case _ => PlacedStays(bus, Apply(hash, bus, step).listeners);
  }

  // ---- how often --------------------------------------------------------------------------------------

  /** Whether this step is a handler's answer `ack` for message `t`. */
  predicate IsAnswer(bus: Bus, step: Step, t: nat, ack: Ack)
    requires Enabled(bus, step)
  {
    step.Finish? && step.ack == ack && bus.listeners[step.l].jobs[step.j].token == t
  }

  /** How often in a run a handler has answered `ack` for message `t`. */
  ghost function Answers(hash: string -> nat, bus: Bus, steps: seq<Step>, t: nat, ack: Ack): nat
    requires Possible(hash, bus, steps)
    decreases |steps|
  {
    if steps == [] then 0 else
      (if IsAnswer(bus, steps[0], t, ack) then 1 else 0) +
      Answers(hash, Apply(hash, bus, steps[0]), steps[1..], t, ack)
  }

  lemma StepAnswers(hash: string -> nat, bus: Bus, step: Step, t: nat)
    requires Enabled(bus, step)
    ensures var next := Apply(hash, bus, step);
            && Sum(next.acked, OfMessage(t)) ==
               Sum(bus.acked, OfMessage(t)) + (if IsAnswer(bus, step, t, Accept) then 1 else 0)
            && Sum(next.rejected, OfMessage(t)) ==
               Sum(bus.rejected, OfMessage(t)) + (if IsAnswer(bus, step, t, Reject) then 1 else 0)
  {
    if step.Finish? {
      var li := bus.listeners[step.l];
      var m := Handled(li, li.jobs[step.j], step.ack);
      var now := bus.listeners[step.l := li.(jobs := Without(li.jobs, step.j))];
      AnswerCounts(bus.(listeners := now), li, m, step.ack, t);
    } else {
      OthersLeaveAnswers(hash, bus, step);
    }
  }

  lemma AnswerCounts(bus: Bus, l: Listener, m: Message, ack: Ack, t: nat)
    ensures var next := AfterHandler(bus, l, m, ack);
            && Sum(next.acked, OfMessage(t)) ==
               Sum(bus.acked, OfMessage(t)) + (if ack == Accept && m.token == t then 1 else 0)
            && Sum(next.rejected, OfMessage(t)) ==
               Sum(bus.rejected, OfMessage(t)) + (if ack == Reject && m.token == t then 1 else 0)
  {
    SumAppend(bus.acked, m, OfMessage(t));
    SumAppend(bus.rejected, m, OfMessage(t));
  }

  lemma OthersLeaveAnswers(hash: string -> nat, bus: Bus, step: Step)
    requires Enabled(bus, step) && !step.Finish?
    ensures var next := Apply(hash, bus, step); next.acked == bus.acked && next.rejected == bus.rejected
  {}

  lemma {:induction false} RunAnswers(hash: string -> nat, bus: Bus, steps: seq<Step>, t: nat)
    requires Placed(bus) && Possible(hash, bus, steps)
    ensures var end := After(hash, bus, steps);
            && Placed(end)
            && Sum(end.acked, OfMessage(t)) == Sum(bus.acked, OfMessage(t)) + Answers(hash, bus, steps, t, Accept)
            && Sum(end.rejected, OfMessage(t)) == Sum(bus.rejected, OfMessage(t)) + Answers(hash, bus, steps, t, Reject)
    decreases |steps|
  {
    if steps != [] {
      StepPlaces(hash, bus, steps[0]);
      StepAnswers(hash, bus, steps[0], t);
      RunAnswers(hash, Apply(hash, bus, steps[0]), steps[1..], t);
    }
  }

  /** In every run from the empty bus, with any handlers and any listeners: every message rests where its last answer
      puts it, and it has been acknowledged, and rejected, exactly as often as a handler has said so. */
  lemma EveryRunAnswers(hash: string -> nat, steps: seq<Step>, t: nat)
    requires Possible(hash, EMPTY, steps)
    ensures var bus := After(hash, EMPTY, steps);
            && Placed(bus)
            && Sum(bus.acked, OfMessage(t)) == Answers(hash, EMPTY, steps, t, Accept)
            && Sum(bus.rejected, OfMessage(t)) == Answers(hash, EMPTY, steps, t, Reject)
  {
    RunAnswers(hash, EMPTY, steps, t);
  }
}
