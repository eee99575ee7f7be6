/** The life of a message on the bus: where it is handled, with which counts, and how often at one place. */
module MessagingLives {
  import opened Wrappers
  import opened MessagingBus
  import opened MessagingSafety

  /** The options that all listeners of a destination share. */
  type Shared = string -> Options

  // ---- the life of one message ------------------------------------------------------------------

  function DeadOf(config: Shared, d: string): Option<string> {
    match config(d).deadLetter case Some(addr) => Some(DestName(addr)) case None => None
  }

  /** Where a message that was nacked goes. */
  function Next(config: Shared, h: Handling): string {
    if h.requeue then h.dest else match DeadOf(config, h.dest) case Some(d) => d case None => h.dest
  }

  function Where(config: Shared, m: Message): string {
    if m.life == [] then m.home else Next(config, m.life[|m.life| - 1])
  }

  /** The message goes on after this handling. */
  predicate GoesOn(config: Shared, h: Handling) {
    h.ack == Retry && (h.requeue || DeadOf(config, h.dest).Some?)
  }

  /** Handling number `i` is what the ones before it lead to. */
  predicate LinkOk(config: Shared, m: Message, i: nat)
    requires i < |m.life|
  {
    var h := m.life[i];
    && h.count == (m.sent + i) % U32
    && h.dest == (if i == 0 then m.home else Next(config, m.life[i - 1]))
    && h.requeue == (h.ack == Retry && (h.count + 1) % U32 < config(h.dest).limit)
    && (i + 1 < |m.life| ==> GoesOn(config, h))
  }

  ghost predicate Chained(config: Shared, m: Message) {
    forall i :: 0 <= i < |m.life| ==> LinkOk(config, m, i)
  }

  /** On its way to destination `d`. */
  ghost predicate InFlight(config: Shared, m: Message, d: string) {
    && Chained(config, m)
    && (m.life != [] ==> GoesOn(config, m.life[|m.life| - 1]))
    && m.count == (m.sent + |m.life|) % U32
    && d == Where(config, m)
  }

  /** The requeue flag says exactly whether attempts remain. */
  lemma RequeueFlag(config: Shared, m: Message, i: nat)
    requires Chained(config, m) && i < |m.life| && m.life[i].ack == Retry
    ensures m.life[i].requeue <==> (m.sent + i + 1) % U32 < config(m.life[i].dest).limit
  {
    assert LinkOk(config, m, i);
    Wraps(m.sent + i);
  }

  lemma Wraps(n: nat)
    ensures (n % U32 + 1) % U32 == (n + 1) % U32
  {}

  // ---- chains of dead letters ---------------------------------------------------------------------

  /** The destination `n` dead letters on. */
  function Dead(config: Shared, d: string, n: nat): Option<string> {
    if n == 0 then Some(d) else
      var e := Dead(config, d, n - 1);
      if e.None? then None else DeadOf(config, e.value)
  }

  /** No chain of dead letters leads from a destination back to it. */
  ghost predicate NoReturn(config: Shared, d: string) {
    forall n: nat :: n >= 1 ==> Dead(config, d, n) != Some(d)
  }

  /** How many of the handlings from `i` up to `j` were the last at their destination. */
  function Moves(m: Message, i: nat, j: nat): nat
    requires i <= j <= |m.life|
    decreases j
  {
    if i == j then 0 else Moves(m, i, j - 1) + if m.life[j - 1].requeue then 0 else 1
  }

  lemma {:induction false} MovesFollowDead(config: Shared, m: Message, i: nat, j: nat)
    requires Chained(config, m) && i <= j < |m.life|
    ensures Dead(config, m.life[i].dest, Moves(m, i, j)) == Some(m.life[j].dest)
    decreases j
  {
    if i < j {
      MovesFollowDead(config, m, i, j - 1);
      LinkLeads(config, m, j);
      DeadOn(config, m.life[i].dest, Moves(m, i, j - 1), m.life[j - 1].dest);
    }
  }

  lemma LinkLeads(config: Shared, m: Message, j: nat)
    requires Chained(config, m) && 0 < j < |m.life|
    ensures if m.life[j - 1].requeue then m.life[j].dest == m.life[j - 1].dest
            else DeadOf(config, m.life[j - 1].dest) == Some(m.life[j].dest)
  {
    assert LinkOk(config, m, j - 1) && LinkOk(config, m, j);
  }

  lemma DeadOn(config: Shared, d: string, n: nat, e: string)
    requires Dead(config, d, n) == Some(e)
    ensures Dead(config, d, n + 1) == DeadOf(config, e)
  {}

  lemma {:induction false} NoMoves(config: Shared, m: Message, i: nat, j: nat, k: nat)
    requires Chained(config, m) && i <= k < j < |m.life| && Moves(m, i, j) == 0
    ensures m.life[k].requeue && m.life[k].dest == m.life[i].dest
    decreases j
  {
    if k == j - 1 {
      MovesFollowDead(config, m, i, k);
    } else {
      NoMoves(config, m, i, j - 1, k);
    }
  }

  /** Between two handlings at a destination that no dead letters lead back to, the message stays there, every
      nack announces a requeue, and the count rises by one and is below the limit. */
  lemma StaysAtDestination(config: Shared, m: Message, i: nat, j: nat, k: nat)
    requires Chained(config, m) && i <= k < j < |m.life| && m.life[i].dest == m.life[j].dest
    requires NoReturn(config, m.life[i].dest)
    ensures m.life[k].dest == m.life[i].dest && m.life[k].ack == Retry && m.life[k].requeue
    ensures m.life[k + 1].count == (m.life[k].count + 1) % U32 < config(m.life[i].dest).limit
  {
    MovesFollowDead(config, m, i, j);
    NoMoves(config, m, i, j, k);
    assert LinkOk(config, m, k) && LinkOk(config, m, k + 1);
    Wraps(m.sent + k);
  }

  /** How many of the first `n` handlings were at `d`. */
  function TimesAt(life: seq<Handling>, d: string, n: nat): nat
    requires n <= |life|
  {
    if n == 0 then 0 else TimesAt(life, d, n - 1) + if life[n - 1].dest == d then 1 else 0
  }

  function Limit(config: Shared, d: string): nat {
    if config(d).limit == 0 then 1 else config(d).limit
  }

  /** Handled at most max(1, limit) times at home. */
  predicate WithinLimit(config: Shared, m: Message) {
    TimesAt(m.life, m.home, |m.life|) <= Limit(config, m.home)
  }

  lemma {:induction false} NoneAfter(life: seq<Handling>, d: string, k: nat, n: nat)
    requires n <= |life| && forall j :: k <= j < n ==> life[j].dest != d
    ensures TimesAt(life, d, n) <= k
    decreases n
  {
    if n > 0 { NoneAfter(life, d, if k < n then k else n - 1, n - 1); }
  }

  lemma GoneAtLimit(config: Shared, m: Message, j: nat)
    requires Chained(config, m) && m.sent == 0 && NoReturn(config, m.home)
    requires 0 < j < |m.life| && config(m.home).limit <= j
    ensures m.life[j].dest != m.home
  {
    var k := if config(m.home).limit == 0 then 0 else config(m.home).limit - 1;
    assert LinkOk(config, m, 0) && LinkOk(config, m, k);
    if m.life[j].dest == m.home { StaysAtDestination(config, m, 0, j, k); }
  }

  /** A message sent with count 0 is handled at most max(1, limit) times at the destination it was sent to, if no
      dead letters lead back there. */
  lemma HandledAtMostLimit(config: Shared, m: Message)
    requires Chained(config, m) && m.sent == 0 && NoReturn(config, m.home)
    ensures WithinLimit(config, m)
  {
    forall j | Limit(config, m.home) <= j < |m.life|
      ensures m.life[j].dest != m.home
    {
      GoneAtLimit(config, m, j);
    }
    NoneAfter(m.life, m.home, Limit(config, m.home), |m.life|);
  }

  // ---- the bound needs that condition ---------------------------------------------------------------

  /** The destination of handling number `i` of a message sent with count 0 that is always nacked. */
  function DestAt(config: Shared, home: string, i: nat): Option<string> {
    if i == 0 then Some(home) else
      var d := DestAt(config, home, i - 1);
      if d.None? then None
      else if Requeues(config, d.value, i - 1) then d
      else DeadOf(config, d.value)
  }

  predicate Requeues(config: Shared, d: string, i: nat) {
    (i + 1) % U32 < config(d).limit
  }

  predicate GoesTo(config: Shared, home: string, n: nat) {
    forall i :: 0 <= i < n ==> DestAt(config, home, i).Some?
  }

  function NackAt(config: Shared, home: string, i: nat): Handling
    requires DestAt(config, home, i).Some?
  {
    var d := DestAt(config, home, i).value;
    Handling(d, i % U32, Retry, Requeues(config, d, i))
  }

  function NackedLife(config: Shared, home: string, n: nat): (life: seq<Handling>)
    requires GoesTo(config, home, n)
    ensures |life| == n
  {
    if n == 0 then [] else NackedLife(config, home, n - 1) + [NackAt(config, home, n - 1)]
  }

  lemma {:induction false} LifeAt(config: Shared, home: string, n: nat, i: nat)
    requires GoesTo(config, home, n) && i < n
    ensures NackedLife(config, home, n)[i] == NackAt(config, home, i)
    decreases n
  {
    if i < n - 1 { LifeAt(config, home, n - 1, i); }
  }

  function Nacked(config: Shared, home: string, n: nat): Message
    requires GoesTo(config, home, n)
  {
    Message(0, None, n % U32, home, 0, NackedLife(config, home, n))
  }

  lemma NackLeads(config: Shared, home: string, i: nat)
    requires DestAt(config, home, i).Some? && DestAt(config, home, i + 1).Some?
    ensures GoesOn(config, NackAt(config, home, i))
    ensures Next(config, NackAt(config, home, i)) == DestAt(config, home, i + 1).value
  {}

  lemma NackedIsChained(config: Shared, home: string, n: nat)
    requires GoesTo(config, home, n)
    ensures Chained(config, Nacked(config, home, n))
  {
    var m := Nacked(config, home, n);
    forall i | 0 <= i < |m.life|
      ensures LinkOk(config, m, i)
    {
      Wraps(i);
      LifeAt(config, home, n, i);
      if i + 1 < n { NackLeads(config, home, i); }
      if i > 0 {
        LifeAt(config, home, n, i - 1);
        NackLeads(config, home, i - 1);
      }
    }
  }

  lemma {:induction false} GoesThere(config: Shared, home: string, n: nat)
    requires DestAt(config, home, n).Some?
    ensures GoesTo(config, home, n + 1)
  {
    if n > 0 { GoesThere(config, home, n - 1); }
  }

  /** Some time after handling number `i` the message is nacked for the last time at its destination. */
  lemma {:induction false} LastNackComes(config: Shared, home: string, i: nat) returns (k: nat)
    requires DestAt(config, home, i).Some?
    ensures k >= i && DestAt(config, home, k) == DestAt(config, home, i)
    ensures !Requeues(config, DestAt(config, home, i).value, k)
    decreases U32 - (i + 1) % U32
  {
    if Requeues(config, DestAt(config, home, i).value, i) {
      Wraps(i + 1);
      k := LastNackComes(config, home, i + 1);
    } else {
      k := i;
    }
  }

  /** It reaches every destination on the chain of dead letters, after its last handling at home. */
  lemma {:induction false} ChainIsReached(config: Shared, home: string, n: nat) returns (i: nat)
    requires Dead(config, home, n).Some?
    ensures DestAt(config, home, i) == Dead(config, home, n)
    ensures n >= 1 ==> i >= 1 && i >= config(home).limit
    decreases n
  {
    if n == 0 {
      i := 0;
    } else {
      var j := ChainIsReached(config, home, n - 1);
      var k := LastNackComes(config, home, j);
      i := k + 1;
      if n == 1 { assert Dead(config, home, 0) == Some(home); }
    }
  }

  /** At home a fresh message is handled at most max(1, limit) times, whatever its handlers answer, exactly if no
      chain of dead letters leads back home. */
  lemma LimitHoldsIff(config: Shared, home: string)
    ensures (forall m :: Chained(config, m) && m.home == home && m.sent == 0 ==> WithinLimit(config, m)) <==>
            NoReturn(config, home)
  {
    if NoReturn(config, home) {
      forall m | Chained(config, m) && m.home == home && m.sent == 0
        ensures WithinLimit(config, m)
      {
        HandledAtMostLimit(config, m);
      }
    } else {
      var n: nat :| n >= 1 && Dead(config, home, n) == Some(home);
      var m := ReturnsTooOften(config, home, n);
    }
  }

  lemma ReturnsTooOften(config: Shared, home: string, n: nat) returns (m: Message)
    requires n >= 1 && Dead(config, home, n) == Some(home)
    ensures Chained(config, m) && m.home == home && m.sent == 0 && !WithinLimit(config, m)
  {
    var i := ChainIsReached(config, home, n);
    GoesThere(config, home, i);
    NackedIsChained(config, home, i + 1);
    m := Nacked(config, home, i + 1);
    BackTooOften(config, home, i);
  }

  /** The first handlings, up to the limit, are all at home. */
  lemma {:induction false} StaysHome(config: Shared, home: string, i: nat)
    requires i < Limit(config, home)
    ensures DestAt(config, home, i) == Some(home)
  {
    if i > 0 { StaysHome(config, home, i - 1); }
  }

  lemma {:induction false} AllAtHome(config: Shared, home: string, n: nat, k: nat)
    requires GoesTo(config, home, n) && k <= n && k <= Limit(config, home)
    ensures TimesAt(NackedLife(config, home, n), home, k) == k
    decreases k
  {
    if k > 0 {
      AllAtHome(config, home, n, k - 1);
      LifeAt(config, home, n, k - 1);
      StaysHome(config, home, k - 1);
    }
  }

  lemma {:induction false} TimesGrow(life: seq<Handling>, d: string, k: nat, n: nat)
    requires k <= n <= |life|
    ensures TimesAt(life, d, k) <= TimesAt(life, d, n)
    decreases n
  {
    if k < n { TimesGrow(life, d, k, n - 1); }
  }

  /** Back home after its last handling there, a message that is always nacked has been there once too often. */
  lemma BackTooOften(config: Shared, home: string, i: nat)
    requires GoesTo(config, home, i + 1) && DestAt(config, home, i) == Some(home) && i >= Limit(config, home)
    ensures !WithinLimit(config, Nacked(config, home, i + 1))
  {
    var life := NackedLife(config, home, i + 1);
    AllAtHome(config, home, i + 1, Limit(config, home));
    TimesGrow(life, home, Limit(config, home), i);
    LifeAt(config, home, i + 1, i);
  }

  /** Two destinations that are each other's dead letter break the bound. */
  lemma EachOthersDeadLetter(config: Shared, a: string, b: string)
    requires DeadOf(config, a) == Some(b) && DeadOf(config, b) == Some(a)
    ensures !NoReturn(config, a)
    ensures exists m :: Chained(config, m) && m.home == a && m.sent == 0 && !WithinLimit(config, m)
  {
    assert Dead(config, a, 0) == Some(a) && Dead(config, a, 1) == Some(b);
    assert Dead(config, a, 2) == Some(a);
    LimitHoldsIff(config, a);
  }

  // ---- every message in the bus lives like that -------------------------------------------------

  ghost predicate AllFlying(config: Shared, ms: seq<Message>, d: string) {
    forall i :: 0 <= i < |ms| ==> InFlight(config, ms[i], d)
  }

  ghost predicate ListenerFlies(config: Shared, l: Listener) {
    && l.opts == config(l.dest)
    && AllFlying(config, l.buffer, l.dest) && AllFlying(config, l.hand, l.dest) && AllFlying(config, l.jobs, l.dest)
  }

  ghost predicate Flying(config: Shared, bus: Bus) {
    && (forall i :: 0 <= i < |bus.listeners| ==> ListenerFlies(config, bus.listeners[i]))
    && (forall i :: 0 <= i < |bus.unsent| ==> InFlight(config, bus.unsent[i].msg, bus.unsent[i].dest))
    && (forall i :: 0 <= i < |bus.waiting| ==> InFlight(config, bus.waiting[i].msg, bus.waiting[i].dest))
  }

  ghost predicate Landed(config: Shared, bus: Bus) {
    && (forall i :: 0 <= i < |bus.acked| ==> Chained(config, bus.acked[i]))
    && (forall i :: 0 <= i < |bus.rejected| ==> Chained(config, bus.rejected[i]))
    && (forall i :: 0 <= i < |bus.dropped| ==> Chained(config, bus.dropped[i].msg))
  }

  /** Listeners get their destination's options. */
  predicate Shares(config: Shared, step: Step) {
    step.AddListener? ==> step.opts == config(step.dest)
  }

  lemma HandledIsChained(config: Shared, l: Listener, m: Message, ack: Ack)
    requires InFlight(config, m, l.dest) && l.opts == config(l.dest)
    ensures Chained(config, Handled(l, m, ack))
  {
    var n := Handled(l, m, ack);
    forall i | 0 <= i < |n.life|
      ensures LinkOk(config, n, i)
    {
      if i < |m.life| { assert LinkOk(config, m, i); }
    }
  }

  /** A nacked message that goes on flies to the right place. */
  lemma HandledFliesOn(config: Shared, l: Listener, m: Message)
    requires InFlight(config, m, l.dest) && l.opts == config(l.dest)
    ensures var n := Handled(l, m, Retry);
            && (n.count < l.opts.limit ==> InFlight(config, n, DestName(Address(l.dest))))
            && (n.count >= l.opts.limit && l.opts.deadLetter.Some? ==>
                  InFlight(config, n, DestName(l.opts.deadLetter.value)))
  {
    HandledIsChained(config, l, m, Retry);
    RequeueAddress(l.dest);
    Wraps(m.sent + |m.life|);
  }

  lemma FlyingUpdate(config: Shared, bus: Bus, l: nat, li: Listener)
    requires Flying(config, bus) && l < |bus.listeners| && ListenerFlies(config, li)
    ensures Flying(config, bus.(listeners := bus.listeners[l := li]))
  {}

  lemma SendFlies(config: Shared, hash: string -> nat, bus: Bus, dest: string, key: Option<string>, msg: Message,
                  blocking: bool)
    requires Flying(config, bus) && Fresh(msg, dest)
    ensures Flying(config, ApplySend(hash, bus, dest, key, msg, blocking))
  {}

  lemma DeliverFlies(config: Shared, bus: Bus, w: nat)
    requires Inv(bus) && Flying(config, bus) && Landed(config, bus) && w < |bus.waiting|
    ensures bus.waiting[w].listener < |bus.listeners|
    ensures Flying(config, ApplyDeliver(bus, w)) && Landed(config, ApplyDeliver(bus, w))
  {
    var wait := bus.waiting[w];
    assert IsOpen(bus.listeners, wait.listener);
    var li := Enqueue(bus.listeners[wait.listener], wait.msg);
    assert InFlight(config, wait.msg, li.dest);
    FlyingUpdate(config, bus, wait.listener, li);
  }

  lemma FinishFlies(config: Shared, hash: string -> nat, bus: Bus, l: nat, j: nat, ack: Ack)
    requires Flying(config, bus) && Landed(config, bus) && Enabled(bus, Finish(l, j, ack))
    ensures Flying(config, Apply(hash, bus, Finish(l, j, ack))) && Landed(config, Apply(hash, bus, Finish(l, j, ack)))
  {
    var li := bus.listeners[l];
    assert InFlight(config, li.jobs[j], li.dest);
    FlyingUpdate(config, bus, l, li.(jobs := Without(li.jobs, j)));
    HandledIsChained(config, li, li.jobs[j], ack);
    if ack == Retry { HandledFliesOn(config, li, li.jobs[j]); }
  }

  lemma PickSendFlies(config: Shared, hash: string -> nat, bus: Bus, u: nat)
    requires Flying(config, bus) && Landed(config, bus) && u < |bus.unsent|
    ensures Flying(config, ApplyPickSend(hash, bus, u)) && Landed(config, ApplyPickSend(hash, bus, u))
  {
    var send := bus.unsent[u];
    assert InFlight(config, send.msg, send.dest);
  }

  lemma ReceiveFlies(config: Shared, hash: string -> nat, bus: Bus, l: nat)
    requires Flying(config, bus) && Enabled(bus, Receive(l))
    ensures Flying(config, Apply(hash, bus, Receive(l)))
  {
    var li := bus.listeners[l];
    FlyingUpdate(config, bus, l, li.(buffer := li.buffer[1..], hand := [li.buffer[0]]));
  }

  lemma BeginFlies(config: Shared, hash: string -> nat, bus: Bus, l: nat)
    requires Flying(config, bus) && Enabled(bus, Begin(l))
    ensures Flying(config, Apply(hash, bus, Begin(l)))
  {
    var li := bus.listeners[l];
    FlyingUpdate(config, bus, l, li.(hand := [], jobs := li.jobs + li.hand, begun := li.begun + [li.hand[0].token]));
  }

  /** Every step keeps every message's life a chain, where the listeners of a destination share their options. */
  lemma StepFlies(config: Shared, hash: string -> nat, bus: Bus, step: Step)
    requires Inv(bus) && Flying(config, bus) && Landed(config, bus) && Enabled(bus, step) && Shares(config, step)
    ensures Flying(config, Apply(hash, bus, step)) && Landed(config, Apply(hash, bus, step))
  {
    match step
    case AddListener(dest, opts) =>
    case Send(dest, key, msg, blocking) => SendFlies(config, hash, bus, dest, key, msg, blocking);
    case Deliver(w) => DeliverFlies(config, bus, w);
    case Receive(l) => ReceiveFlies(config, hash, bus, l);
    case Begin(l) => BeginFlies(config, hash, bus, l);
    case Finish(l, j, ack) => FinishFlies(config, hash, bus, l, j, ack);
    case PickSend(u) => PickSendFlies(config, hash, bus, u);
    case Exit(l) => FlyingUpdate(config, bus, l, bus.listeners[l].(alive := false));
    case _ =>
  }
}
