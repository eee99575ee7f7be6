/** Redelivery ends: how often a message can still be handled, and the work left in the whole bus. */
module MessagingRedelivery {
  import opened Wrappers
  import opened MessagingBus
  import opened MessagingSafety
  import opened MessagingLives

  /** Shared options, and a rank that dead letters descend. */
  datatype Policy = Policy(config: Shared, rank: string -> nat, top: nat)

  ghost predicate Sound(p: Policy) {
    forall d :: SoundAt(p, d)
  }

  /** Limits are at most `top`, dead letters go down, and no count gets near the end of 32 bits. */
  predicate SoundAt(p: Policy, d: string) {
    && p.config(d).limit <= p.top && p.top + p.rank(d) < U32
    && (DeadOf(p.config, d).Some? ==> p.rank(DeadOf(p.config, d).value) < p.rank(d))
  }

  /** Sent with a count that leaves room for every dead letter on the way. */
  predicate Fits(p: Policy, m: Message) {
    m.sent + p.rank(m.home) + 1 < U32
  }

  lemma {:induction false} ChainDescends(p: Policy, d: string, n: nat)
    requires Sound(p) && n >= 1 && Dead(p.config, d, n).Some?
    ensures p.rank(Dead(p.config, d, n).value) < p.rank(d)
    decreases n
  {
    var e := Dead(p.config, d, n - 1).value;
    assert SoundAt(p, e);
    if n > 1 { ChainDescends(p, d, n - 1); }
  }

  lemma NoneReturns(p: Policy, d: string)
    requires Sound(p)
    ensures NoReturn(p.config, d)
  {
    forall n: nat | n >= 1
      ensures Dead(p.config, d, n) != Some(d)
    {
      if Dead(p.config, d, n).Some? { ChainDescends(p, d, n); }
    }
  }

  // ---- how often a message can still be handled ---------------------------------------------------

  /** The most handlings that can still come for a message with this count at destination `d`. */
  function Left(p: Policy, d: string, count: nat): nat {
    (if count + 1 < p.top then p.top - 1 - count else 0) + p.rank(d) + 1
  }

  lemma LeftDrops(p: Policy, h: Handling)
    requires SoundAt(p, h.dest) && GoesOn(p.config, h) && h.count + p.rank(h.dest) + 1 < U32
    requires h.requeue == (h.count + 1 < p.config(h.dest).limit)
    ensures Left(p, Next(p.config, h), h.count + 1) < Left(p, h.dest, h.count)
    ensures h.count + 1 + p.rank(Next(p.config, h)) + 1 < U32
  {}

  /** Along the life of a message no count wraps, and what is left falls with every handling. */
  lemma {:induction false} LeftAlong(p: Policy, m: Message, i: nat)
    requires Sound(p) && Chained(p.config, m) && Fits(p, m) && i < |m.life|
    ensures var h := m.life[i];
            && h.count == m.sent + i && h.count + p.rank(h.dest) + 1 < U32
            && i + Left(p, h.dest, h.count) <= Left(p, m.home, m.sent)
    decreases i
  {
    assert LinkOk(p.config, m, i);
    if i > 0 {
      assert LinkOk(p.config, m, i - 1) && SoundAt(p, m.life[i - 1].dest);
      LeftAlong(p, m, i - 1);
      LeftDrops(p, m.life[i - 1]);
    }
  }

  /** With dead letters that do not go round in circles, every message is handled finitely often. */
  lemma LifeIsBounded(p: Policy, m: Message)
    requires Sound(p) && Chained(p.config, m) && Fits(p, m)
    ensures |m.life| <= Left(p, m.home, m.sent)
  {
    if m.life != [] { LeftAlong(p, m, |m.life| - 1); }
  }

  /** The count of a message on its way has room for one more, and for every dead letter after it. */
  lemma RoomInFlight(p: Policy, m: Message, d: string)
    requires Sound(p) && InFlight(p.config, m, d) && Fits(p, m)
    ensures m.count == m.sent + |m.life| && m.count + p.rank(d) + 1 < U32
  {
    if m.life != [] {
      var n := |m.life| - 1;
      LeftAlong(p, m, n);
      assert LinkOk(p.config, m, n) && SoundAt(p, m.life[n].dest);
      LeftDrops(p, m.life[n]);
    }
  }

  // ---- what holds of every message in the bus -----------------------------------------------------

  /** Some property of every message, wherever it is. */
  ghost predicate All(bus: Bus, q: Message -> bool) {
    && (forall i :: 0 <= i < |bus.listeners| ==> ListenerAll(bus.listeners[i], q))
    && (forall i :: 0 <= i < |bus.unsent| ==> q(bus.unsent[i].msg))
    && (forall i :: 0 <= i < |bus.waiting| ==> q(bus.waiting[i].msg))
    && (forall i :: 0 <= i < |bus.acked| ==> q(bus.acked[i]))
    && (forall i :: 0 <= i < |bus.rejected| ==> q(bus.rejected[i]))
    && (forall i :: 0 <= i < |bus.dropped| ==> q(bus.dropped[i].msg))
  }

  ghost predicate ListenerAll(l: Listener, q: Message -> bool) {
    && (forall i :: 0 <= i < |l.buffer| ==> q(l.buffer[i]))
    && (forall i :: 0 <= i < |l.hand| ==> q(l.hand[i]))
    && (forall i :: 0 <= i < |l.jobs| ==> q(l.jobs[i]))
  }

  function Fitting(p: Policy): Message -> bool {
    (m: Message) => Fits(p, m)
  }

  lemma AllUpdate(bus: Bus, l: nat, li: Listener, q: Message -> bool)
    requires All(bus, q) && l < |bus.listeners| && ListenerAll(li, q)
    ensures All(bus.(listeners := bus.listeners[l := li]), q)
  {}

  lemma DeliverKeepsAll(bus: Bus, w: nat, q: Message -> bool)
    requires All(bus, q) && w < |bus.waiting| && bus.waiting[w].listener < |bus.listeners|
    ensures All(ApplyDeliver(bus, w), q)
  {
    var wait := bus.waiting[w];
    assert q(wait.msg);
    AllUpdate(bus, wait.listener, Enqueue(bus.listeners[wait.listener], wait.msg), q);
  }

  lemma FinishKeepsFitting(p: Policy, hash: string -> nat, bus: Bus, l: nat, j: nat, ack: Ack)
    requires All(bus, Fitting(p)) && Enabled(bus, Finish(l, j, ack))
    ensures All(Apply(hash, bus, Finish(l, j, ack)), Fitting(p))
  {
    var li := bus.listeners[l];
    assert Fitting(p)(li.jobs[j]);
    assert Fitting(p)(Handled(li, li.jobs[j], ack));
    AllUpdate(bus, l, li.(jobs := Without(li.jobs, j)), Fitting(p));
  }

  lemma PickSendKeepsAll(hash: string -> nat, bus: Bus, u: nat, q: Message -> bool)
    requires All(bus, q) && u < |bus.unsent|
    ensures All(ApplyPickSend(hash, bus, u), q)
  {
    assert q(bus.unsent[u].msg);
  }

  /** Listeners get their destination's options, and callers do not send counts near the end of 32 bits. */
  predicate Obeys(p: Policy, step: Step) {
    Shares(p.config, step) && (step.Send? ==> Fits(p, step.msg))
  }

  lemma StepKeepsFitting(p: Policy, hash: string -> nat, bus: Bus, step: Step)
    requires All(bus, Fitting(p)) && Enabled(bus, step) && Obeys(p, step)
    ensures All(Apply(hash, bus, step), Fitting(p))
  {
    match step
    case Deliver(w) => DeliverKeepsAll(bus, w, Fitting(p));
    case Receive(l) =>
      var li := bus.listeners[l];
      AllUpdate(bus, l, li.(buffer := li.buffer[1..], hand := [li.buffer[0]]), Fitting(p));
    case Begin(l) =>
      var li := bus.listeners[l];
      AllUpdate(bus, l, li.(hand := [], jobs := li.jobs + li.hand, begun := li.begun + [li.hand[0].token]), Fitting(p));
    case Finish(l, j, ack) => FinishKeepsFitting(p, hash, bus, l, j, ack);
    case PickSend(u) => PickSendKeepsAll(hash, bus, u, Fitting(p));
    case Exit(l) => AllUpdate(bus, l, bus.listeners[l].(alive := false), Fitting(p));
    case _ =>
  }

  // ---- the work left ------------------------------------------------------------------------

  /** The steps a message may still cause: five for each handling to come, less what is behind it. */
  function Work(p: Policy, m: Message, d: string, stage: nat): nat {
    5 * Left(p, d, m.count) + stage
  }

  function At(p: Policy, d: string, stage: nat): Message -> nat {
    (m: Message) => Work(p, m, d, stage)
  }

  function UnsentWork(p: Policy): Unsent -> nat {
    (u: Unsent) => Work(p, u.msg, u.dest, 4)
  }

  function WaitingWork(p: Policy): Waiting -> nat {
    (w: Waiting) => Work(p, w.msg, w.dest, 3)
  }

  function LoadOf(p: Policy, l: Listener): nat {
    Sum(l.buffer, At(p, l.dest, 2)) + Sum(l.hand, At(p, l.dest, 1)) + Sum(l.jobs, At(p, l.dest, 0))
  }

  function Load(p: Policy): Listener -> nat {
    (l: Listener) => LoadOf(p, l)
  }

  function TotalWork(p: Policy, bus: Bus): nat {
    Sum(bus.listeners, Load(p)) + Sum(bus.unsent, UnsentWork(p)) + Sum(bus.waiting, WaitingWork(p))
  }

  /** Steps of the bus's own tasks. */
  predicate IsTask(step: Step) {
    step.Deliver? || step.Receive? || step.Begin? || step.Finish? || step.PickSend?
  }

  /** The work a step may bring in. */
  function Budget(p: Policy, step: Step): nat {
    match step
    case Send(dest, _, msg, _) => Work(p, msg, dest, 3)
    case _ => 0
  }

  ghost predicate Pays(p: Policy, bus: Bus, step: Step, next: Bus) {
    TotalWork(p, next) + (if IsTask(step) then 1 else 0) <= TotalWork(p, bus) + Budget(p, step)
  }

  lemma LoadChange(p: Policy, listeners: seq<Listener>, l: nat, li: Listener)
    requires l < |listeners|
    ensures Sum(listeners[l := li], Load(p)) + LoadOf(p, listeners[l]) == Sum(listeners, Load(p)) + LoadOf(p, li)
  {
    SumUpdate(listeners, l, li, Load(p));
  }

  lemma EnqueueLoads(p: Policy, l: Listener, msg: Message)
    ensures LoadOf(p, Enqueue(l, msg)) == LoadOf(p, l) + Work(p, msg, l.dest, 2)
  {
    SumAppend(l.buffer, msg, At(p, l.dest, 2));
  }

  lemma SendPays(p: Policy, hash: string -> nat, bus: Bus, dest: string, key: Option<string>, msg: Message,
                 blocking: bool)
    ensures Pays(p, bus, Send(dest, key, msg, blocking), ApplySend(hash, bus, dest, key, msg, blocking))
  {
    var (picked, l) := PickAt(hash, bus, dest, if key.Some? then key else msg.key);
    if l.Some? { SumAppend(bus.waiting, Waiting(msg, l.value, dest, true, blocking), WaitingWork(p)); }
  }

  lemma DeliverPays(p: Policy, bus: Bus, w: nat)
    requires Inv(bus) && w < |bus.waiting|
    ensures bus.waiting[w].listener < |bus.listeners| && Pays(p, bus, Deliver(w), ApplyDeliver(bus, w))
  {
    var wait := bus.waiting[w];
    assert IsOpen(bus.listeners, wait.listener);
    SumWithout(bus.waiting, w, WaitingWork(p));
    EnqueueLoads(p, bus.listeners[wait.listener], wait.msg);
    LoadChange(p, bus.listeners, wait.listener, Enqueue(bus.listeners[wait.listener], wait.msg));
  }

  lemma PickSendPays(p: Policy, hash: string -> nat, bus: Bus, u: nat)
    requires u < |bus.unsent|
    ensures Pays(p, bus, PickSend(u), ApplyPickSend(hash, bus, u))
  {
    var send := bus.unsent[u];
    var (_, l) := PickAt(hash, bus, send.dest, send.msg.key);
    SumWithout(bus.unsent, u, UnsentWork(p));
    if l.Some? { SumAppend(bus.waiting, Waiting(send.msg, l.value, send.dest, false, true), WaitingWork(p)); }
  }

  lemma ReceivePays(p: Policy, hash: string -> nat, bus: Bus, l: nat)
    requires Enabled(bus, Receive(l))
    ensures Pays(p, bus, Receive(l), Apply(hash, bus, Receive(l)))
  {
    var li := bus.listeners[l];
    LoadChange(p, bus.listeners, l, li.(buffer := li.buffer[1..], hand := [li.buffer[0]]));
    SumAppend([], li.buffer[0], At(p, li.dest, 1));
    assert [] + [li.buffer[0]] == [li.buffer[0]];
  }

  lemma BeginPays(p: Policy, hash: string -> nat, bus: Bus, l: nat)
    requires Enabled(bus, Begin(l))
    ensures Pays(p, bus, Begin(l), Apply(hash, bus, Begin(l)))
  {
    var li := bus.listeners[l];
    LoadChange(p, bus.listeners, l, li.(hand := [], jobs := li.jobs + li.hand, begun := li.begun + [li.hand[0].token]));
    assert li.hand == [li.hand[0]];
    SumAppend(li.jobs, li.hand[0], At(p, li.dest, 0));
    SumAppend([], li.hand[0], At(p, li.dest, 1));
    assert [] + [li.hand[0]] == [li.hand[0]];
  }

  /** A nacked message has less work ahead wherever it goes. */
  lemma RetryCosts(p: Policy, l: Listener, m: Message)
    requires Sound(p) && InFlight(p.config, m, l.dest) && Fits(p, m) && l.opts == p.config(l.dest)
    ensures var n := Handled(l, m, Retry);
            && (n.count < l.opts.limit ==> Work(p, n, DestName(Address(l.dest)), 4) < Work(p, m, l.dest, 0))
            && (n.count >= l.opts.limit && l.opts.deadLetter.Some? ==>
                  Work(p, n, DestName(l.opts.deadLetter.value), 4) < Work(p, m, l.dest, 0))
  {
    assert SoundAt(p, l.dest);
    RequeueAddress(l.dest);
    RoomInFlight(p, m, l.dest);
    var n := Handled(l, m, Retry);
    if n.count < l.opts.limit || l.opts.deadLetter.Some? { LeftDrops(p, n.life[|m.life|]); }
  }

  lemma FinishPays(p: Policy, hash: string -> nat, bus: Bus, l: nat, j: nat, ack: Ack)
    requires Sound(p) && Flying(p.config, bus) && All(bus, Fitting(p)) && Enabled(bus, Finish(l, j, ack))
    ensures Pays(p, bus, Finish(l, j, ack), Apply(hash, bus, Finish(l, j, ack)))
  {
    var li := bus.listeners[l];
    var m := li.jobs[j];
    assert InFlight(p.config, m, li.dest) && Fitting(p)(m);
    var less := li.(jobs := Without(li.jobs, j));
    SumWithout(li.jobs, j, At(p, li.dest, 0));
    LoadChange(p, bus.listeners, l, less);
    if ack == Retry { RetryCosts(p, li, m); }
    AfterHandlerWork(p, bus.(listeners := bus.listeners[l := less]), li, Handled(li, m, ack), ack,
                     Work(p, m, li.dest, 0));
  }

  lemma AfterHandlerWork(p: Policy, bus: Bus, l: Listener, n: Message, ack: Ack, most: nat)
    requires most > 0
    requires ack == Retry && n.count < l.opts.limit ==> Work(p, n, DestName(Address(l.dest)), 4) < most
    requires ack == Retry && n.count >= l.opts.limit && l.opts.deadLetter.Some? ==>
            Work(p, n, DestName(l.opts.deadLetter.value), 4) < most
    ensures TotalWork(p, AfterHandler(bus, l, n, ack)) < TotalWork(p, bus) + most
  {
    if ack == Retry {
      if n.count < l.opts.limit {
        SumAppend(bus.unsent, Unsent(n, DestName(Address(l.dest))), UnsentWork(p));
      } else if l.opts.deadLetter.Some? {
        SumAppend(bus.unsent, Unsent(n, DestName(l.opts.deadLetter.value)), UnsentWork(p));
      }
    }
  }

  lemma StepPays(p: Policy, hash: string -> nat, bus: Bus, step: Step)
    requires Sound(p) && Inv(bus) && Flying(p.config, bus) && All(bus, Fitting(p)) && Enabled(bus, step)
    ensures Pays(p, bus, step, Apply(hash, bus, step))
  {
    match step
    case AddListener(dest, opts) => SumAppend(bus.listeners, Listener(dest, opts, [], [], [], true, [], []), Load(p));
    case Send(dest, key, msg, blocking) => SendPays(p, hash, bus, dest, key, msg, blocking);
    case Deliver(w) => DeliverPays(p, bus, w);
    case Cancel(w) => SumWithout(bus.waiting, w, WaitingWork(p));
    case Receive(l) => ReceivePays(p, hash, bus, l);
    case Begin(l) => BeginPays(p, hash, bus, l);
    case Finish(l, j, ack) => FinishPays(p, hash, bus, l, j, ack);
    case PickSend(u) => PickSendPays(p, hash, bus, u);
    case Exit(l) => LoadChange(p, bus.listeners, l, bus.listeners[l].(alive := false));
    case Stop =>
  }

  function Tasks(steps: seq<Step>): nat {
    if steps == [] then 0 else (if IsTask(steps[0]) then 1 else 0) + Tasks(steps[1..])
  }

  function Budgets(p: Policy, steps: seq<Step>): nat {
    if steps == [] then 0 else Budget(p, steps[0]) + Budgets(p, steps[1..])
  }

  /** What every run keeps. */
  ghost predicate Kept(p: Policy, bus: Bus) {
    Inv(bus) && Flying(p.config, bus) && Landed(p.config, bus) && All(bus, Fitting(p))
  }

  /** In every run the bus's tasks take at most as many steps as the sends pay for: without new sends the bus
      comes to rest. */
  lemma {:induction false} ComesToRest(p: Policy, hash: string -> nat, bus: Bus, steps: seq<Step>)
    requires Sound(p) && Kept(p, bus) && Possible(hash, bus, steps)
    requires forall i :: 0 <= i < |steps| ==> Obeys(p, steps[i])
    ensures Kept(p, After(hash, bus, steps))
    ensures Tasks(steps) + TotalWork(p, After(hash, bus, steps)) <= TotalWork(p, bus) + Budgets(p, steps)
    decreases |steps|
  {
    if steps != [] {
      StepKeepsInv(hash, bus, steps[0]);
      StepFlies(p.config, hash, bus, steps[0]);
      StepKeepsFitting(p, hash, bus, steps[0]);
      StepPays(p, hash, bus, steps[0]);
      ComesToRest(p, hash, Apply(hash, bus, steps[0]), steps[1..]);
    }
  }

  // ---- from the empty bus ---------------------------------------------------------------------------

  /** A life as it should be: a chain, no longer than the bound, and within the limit at home if fresh. */
  ghost predicate LivesWell(p: Policy, m: Message) {
    Chained(p.config, m) && |m.life| <= Left(p, m.home, m.sent) && (m.sent == 0 ==> WithinLimit(p.config, m))
  }

  ghost predicate AllLiveWell(p: Policy, ms: seq<Message>) {
    forall i :: 0 <= i < |ms| ==> LivesWell(p, ms[i])
  }

  ghost predicate ListenersLiveWell(p: Policy, l: Listener) {
    AllLiveWell(p, l.buffer) && AllLiveWell(p, l.hand) && AllLiveWell(p, l.jobs)
  }

  ghost predicate EveryoneLivesWell(p: Policy, bus: Bus) {
    && (forall i :: 0 <= i < |bus.listeners| ==>
          ListenersLiveWell(p, bus.listeners[i]))
    && (forall i :: 0 <= i < |bus.unsent| ==> LivesWell(p, bus.unsent[i].msg))
    && (forall i :: 0 <= i < |bus.waiting| ==> LivesWell(p, bus.waiting[i].msg))
    && AllLiveWell(p, bus.acked) && AllLiveWell(p, bus.rejected)
    && (forall i :: 0 <= i < |bus.dropped| ==> LivesWell(p, bus.dropped[i].msg))
  }

  lemma ChainLivesWell(p: Policy, m: Message)
    requires Sound(p) && Chained(p.config, m) && Fitting(p)(m)
    ensures LivesWell(p, m)
  {
    LifeIsBounded(p, m);
    NoneReturns(p, m.home);
    if m.sent == 0 { HandledAtMostLimit(p.config, m); }
  }

  lemma ChainsLiveWell(p: Policy, ms: seq<Message>)
    requires Sound(p) && forall i :: 0 <= i < |ms| ==> Chained(p.config, ms[i]) && Fitting(p)(ms[i])
    ensures AllLiveWell(p, ms)
  {
    forall i | 0 <= i < |ms|
      ensures LivesWell(p, ms[i])
    {
      ChainLivesWell(p, ms[i]);
    }
  }

  lemma ListenerLivesWell(p: Policy, l: Listener)
    requires Sound(p) && ListenerFlies(p.config, l) && ListenerAll(l, Fitting(p))
    ensures ListenersLiveWell(p, l)
  {
    ChainsLiveWell(p, l.buffer);
    ChainsLiveWell(p, l.hand);
    ChainsLiveWell(p, l.jobs);
  }

  lemma KeptLiveWell(p: Policy, bus: Bus)
    requires Sound(p) && Kept(p, bus)
    ensures EveryoneLivesWell(p, bus)
  {
    forall i | 0 <= i < |bus.listeners|
      ensures ListenersLiveWell(p, bus.listeners[i])
    {
      ListenerLivesWell(p, bus.listeners[i]);
    }
    forall i | 0 <= i < |bus.unsent|
      ensures LivesWell(p, bus.unsent[i].msg)
    {
      ChainLivesWell(p, bus.unsent[i].msg);
    }
    forall i | 0 <= i < |bus.waiting|
      ensures LivesWell(p, bus.waiting[i].msg)
    {
      ChainLivesWell(p, bus.waiting[i].msg);
    }
    forall i | 0 <= i < |bus.dropped|
      ensures LivesWell(p, bus.dropped[i].msg)
    {
      ChainLivesWell(p, bus.dropped[i].msg);
    }
    ChainsLiveWell(p, bus.acked);
    ChainsLiveWell(p, bus.rejected);
  }

  lemma EmptyIsKept(p: Policy)
    ensures Kept(p, EMPTY) && TotalWork(p, EMPTY) == 0
  {}

  /** Every run of the bus from its creation: consumers, buffers, order and concurrency are as they should be;
      each accepted message is in exactly as many places as it was accepted; every message anywhere has had a
      bounded life; the tasks have done no more work than the sends paid for; and if none of them can move,
      everything accepted is settled. */
  lemma EveryRun(p: Policy, hash: string -> nat, steps: seq<Step>, t: nat)
    requires Sound(p) && Possible(hash, EMPTY, steps) && forall i :: 0 <= i < |steps| ==> Obeys(p, steps[i])
    ensures var bus := After(hash, EMPTY, steps);
            && Kept(p, bus) && Accounted(bus, t) && EveryoneLivesWell(p, bus)
            && Tasks(steps) + TotalWork(p, bus) <= Budgets(p, steps)
            && (!Moving(bus) ==> bus.waiting == [] && Settled(bus, t) == bus.accepted[t])
  {
    var bus := After(hash, EMPTY, steps);
    EmptyBusIsOk(t);
    EmptyIsKept(p);
    Conserved(hash, EMPTY, steps, t);
    ComesToRest(p, hash, EMPTY, steps);
    KeptLiveWell(p, bus);
    if !Moving(bus) { NoDeadlock(bus, t); }
  }
}
