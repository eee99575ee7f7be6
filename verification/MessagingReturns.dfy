/** The delivery limit over the states that runs of the bus reach. */
module MessagingReturns {
  import opened Wrappers
  import opened MessagingBus
  import opened MessagingSafety
  import opened MessagingLives
  import opened MessagingRedelivery

  // ---- reachable states -----------------------------------------------------------------------------

  ghost predicate Leads(config: Shared, hash: string -> nat, steps: seq<Step>, bus: Bus) {
    && Possible(hash, EMPTY, steps) && After(hash, EMPTY, steps) == bus
    && forall i :: 0 <= i < |steps| ==> Shares(config, steps[i])
  }

  /** Some run from the empty bus, with listeners that get their destination's options, ends in this state. */
  ghost predicate Reached(config: Shared, hash: string -> nat, bus: Bus) {
    exists steps :: Leads(config, hash, steps, bus)
  }

  lemma {:induction false} OneMoreStep(hash: string -> nat, bus: Bus, steps: seq<Step>, step: Step)
    requires Possible(hash, bus, steps) && Enabled(After(hash, bus, steps), step)
    ensures Possible(hash, bus, steps + [step])
    ensures After(hash, bus, steps + [step]) == Apply(hash, After(hash, bus, steps), step)
    decreases |steps|
  {
    var all := steps + [step];
    if steps == [] {
      assert all[0] == step && all[1..] == [];
    } else {
      assert all[0] == steps[0] && all[1..] == steps[1..] + [step];
      OneMoreStep(hash, Apply(hash, bus, steps[0]), steps[1..], step);
    }
  }

  lemma ReachedOn(config: Shared, hash: string -> nat, bus: Bus, step: Step)
    requires Reached(config, hash, bus) && Enabled(bus, step) && Shares(config, step)
    ensures Reached(config, hash, Apply(hash, bus, step))
  {
    var steps :| Leads(config, hash, steps, bus);
    OneMoreStep(hash, EMPTY, steps, step);
    assert Leads(config, hash, steps + [step], Apply(hash, bus, step));
  }

  ghost predicate Lively(config: Shared, bus: Bus) {
    Inv(bus) && Flying(config, bus) && Landed(config, bus)
  }

  lemma {:induction false} RunIsLively(config: Shared, hash: string -> nat, bus: Bus, steps: seq<Step>)
    requires Lively(config, bus) && Possible(hash, bus, steps)
    requires forall i :: 0 <= i < |steps| ==> Shares(config, steps[i])
    ensures Lively(config, After(hash, bus, steps))
    decreases |steps|
  {
    if steps != [] {
      StepKeepsInv(hash, bus, steps[0]);
      StepFlies(config, hash, bus, steps[0]);
      RunIsLively(config, hash, Apply(hash, bus, steps[0]), steps[1..]);
    }
  }

  lemma ReachedIsLively(config: Shared, hash: string -> nat, bus: Bus)
    requires Reached(config, hash, bus)
    ensures Lively(config, bus)
  {
    var steps :| Leads(config, hash, steps, bus);
    RunIsLively(config, hash, EMPTY, steps);
  }

  // ---- one message on its way -----------------------------------------------------------------------

  predicate Idle(l: Listener) {
    l.buffer == [] && l.hand == [] && l.jobs == []
  }

  predicate IdleBut(bus: Bus, l: nat) {
    forall i :: 0 <= i < |bus.listeners| && i != l ==> Idle(bus.listeners[i])
  }

  /** The only message in the bus waits to enter the buffer of a listener of `d`. */
  ghost predicate Offered(config: Shared, hash: string -> nat, bus: Bus, m: Message, d: string) {
    && Reached(config, hash, bus) && bus.unsent == []
    && (forall i :: 0 <= i < |bus.listeners| ==> Idle(bus.listeners[i]))
    && |bus.waiting| == 1 && bus.waiting[0].msg == m && bus.waiting[0].dest == d && bus.waiting[0].blocking
  }

  /** The only message in the bus is with listener `l` of `d`. */
  ghost predicate With(config: Shared, hash: string -> nat, bus: Bus, l: nat, d: string) {
    && Reached(config, hash, bus) && bus.unsent == [] && bus.waiting == []
    && l < |bus.listeners| && IdleBut(bus, l) && bus.listeners[l].dest == d && bus.listeners[l].alive
  }

  /** The only message in the bus is to be sent to `d`. */
  ghost predicate Returning(config: Shared, hash: string -> nat, bus: Bus, m: Message, d: string) {
    && Reached(config, hash, bus) && bus.unsent == [Unsent(m, d)] && bus.waiting == []
    && forall i :: 0 <= i < |bus.listeners| ==> Idle(bus.listeners[i])
  }

  lemma Delivered(config: Shared, hash: string -> nat, bus: Bus, m: Message, d: string) returns (next: Bus, l: nat)
    requires Offered(config, hash, bus, m, d)
    ensures With(config, hash, next, l, d)
    ensures var li := next.listeners[l]; li.buffer == [m] && li.hand == [] && li.jobs == []
  {
    ReachedIsLively(config, hash, bus);
    l := bus.waiting[0].listener;
    assert IsOpen(bus.listeners, l) && ListenerOk(bus.listeners[l]);
    ReachedOn(config, hash, bus, Deliver(0));
    next := Apply(hash, bus, Deliver(0));
  }

  lemma Received(config: Shared, hash: string -> nat, bus: Bus, l: nat, m: Message, d: string) returns (next: Bus)
    requires With(config, hash, bus, l, d)
    requires var li := bus.listeners[l]; li.buffer == [m] && li.hand == [] && li.jobs == []
    ensures With(config, hash, next, l, d)
    ensures var li := next.listeners[l]; li.buffer == [] && li.hand == [m] && li.jobs == []
  {
    ReachedOn(config, hash, bus, Receive(l));
    next := Apply(hash, bus, Receive(l));
  }

  lemma Begun(config: Shared, hash: string -> nat, bus: Bus, l: nat, m: Message, d: string) returns (next: Bus)
    requires With(config, hash, bus, l, d)
    requires var li := bus.listeners[l]; li.buffer == [] && li.hand == [m] && li.jobs == []
    ensures With(config, hash, next, l, d)
    ensures var li := next.listeners[l]; li.buffer == [] && li.hand == [] && li.jobs == [m]
  {
    ReachedOn(config, hash, bus, Begin(l));
    next := Apply(hash, bus, Begin(l));
  }

  /** A message that has been nacked `n` times is nacked once more, and is sent on. */
  lemma NackedOnce(config: Shared, hash: string -> nat, bus: Bus, l: nat, home: string, n: nat) returns (next: Bus)
    requires DestAt(config, home, n).Some? && DestAt(config, home, n + 1).Some?
    requires GoesTo(config, home, n) && GoesTo(config, home, n + 1)
    requires With(config, hash, bus, l, DestAt(config, home, n).value)
    requires var li := bus.listeners[l];
             li.buffer == [] && li.hand == [] && li.jobs == [Nacked(config, home, n)]
    ensures Returning(config, hash, next, Nacked(config, home, n + 1), DestAt(config, home, n + 1).value)
  {
    ReachedIsLively(config, hash, bus);
    var li := bus.listeners[l];
    assert ListenerFlies(config, li);
    NackIsHandled(config, li, home, n);
    ReachedOn(config, hash, bus, Finish(l, 0, Retry));
    next := Apply(hash, bus, Finish(l, 0, Retry));
    assert Without(li.jobs, 0) == [];
  }

  lemma NackIsHandled(config: Shared, l: Listener, home: string, n: nat)
    requires DestAt(config, home, n) == Some(l.dest) && DestAt(config, home, n + 1).Some?
    requires GoesTo(config, home, n) && GoesTo(config, home, n + 1) && l.opts == config(l.dest)
    ensures var m := Handled(l, Nacked(config, home, n), Retry); var d := DestAt(config, home, n + 1).value;
            && m == Nacked(config, home, n + 1)
            && (if m.count < l.opts.limit then DestName(Address(l.dest)) == d
                else l.opts.deadLetter.Some? && DestName(l.opts.deadLetter.value) == d)
  {
    Wraps(n);
    RequeueAddress(l.dest);
  }

  /** Sent again, to a listener that has just been added. */
  lemma OfferedAgain(config: Shared, hash: string -> nat, bus: Bus, m: Message, d: string) returns (next: Bus)
    requires Returning(config, hash, bus, m, d) && config(d).capacity > 0
    ensures Offered(config, hash, next, m, d)
  {
    var mid := Joined(config, hash, bus, d);
    ReachedIsLively(config, hash, mid);
    Answers(hash, mid, d, m.key);
    ReachedOn(config, hash, mid, PickSend(0));
    next := Apply(hash, mid, PickSend(0));
    assert Without(mid.unsent, 0) == [];
  }

  lemma Joined(config: Shared, hash: string -> nat, bus: Bus, d: string) returns (next: Bus)
    requires Reached(config, hash, bus) && config(d).capacity > 0
    requires forall i :: 0 <= i < |bus.listeners| ==> Idle(bus.listeners[i])
    ensures Reached(config, hash, next) && next.unsent == bus.unsent && next.waiting == bus.waiting
    ensures forall i :: 0 <= i < |next.listeners| ==> Idle(next.listeners[i])
    ensures d in next.dests && next.dests[d].listeners != []
  {
    ReachedOn(config, hash, bus, AddListener(d, config(d)));
    next := Apply(hash, bus, AddListener(d, config(d)));
  }

  lemma Answers(hash: string -> nat, bus: Bus, d: string, key: Option<string>)
    requires Inv(bus) && d in bus.dests && bus.dests[d].listeners != []
    ensures var (picked, l) := PickAt(hash, bus, d, key); l.Some? && picked.(dests := bus.dests) == bus
  {
    PickChoosesLive(hash, bus.listeners, bus.dests[d], key);
    assert IsOpen(bus.listeners, bus.dests[d].listeners[0]);
  }

  lemma OfferedFirst(config: Shared, hash: string -> nat, m: Message, d: string) returns (next: Bus)
    requires Fresh(m, d) && config(d).capacity > 0
    ensures Offered(config, hash, next, m, d)
  {
    assert Leads(config, hash, [], EMPTY);
    var mid := Joined(config, hash, EMPTY, d);
    ReachedIsLively(config, hash, mid);
    Answers(hash, mid, d, m.key);
    var step := Send(d, None, m, true);
    ReachedOn(config, hash, mid, step);
    next := Apply(hash, mid, step);
  }

  /** A message sent with count 0 and nacked `n` times waits at its next destination. */
  ghost predicate Travelled(config: Shared, hash: string -> nat, bus: Bus, home: string, n: nat) {
    && DestAt(config, home, n).Some? && GoesTo(config, home, n)
    && Offered(config, hash, bus, Nacked(config, home, n), DestAt(config, home, n).value)
  }

  /** A message that is always nacked really goes where its counts and the dead letters send it. */
  lemma {:induction false} NackedTravels(config: Shared, hash: string -> nat, home: string, n: nat) returns (bus: Bus)
    requires DestAt(config, home, n).Some? && forall d :: config(d).capacity > 0
    ensures Travelled(config, hash, bus, home, n)
    decreases n
  {
    if n == 0 {
      bus := FirstLap(config, hash, home);
    } else {
      NackedBefore(config, home, n - 1);
      var before := NackedTravels(config, hash, home, n - 1);
      bus := NextLap(config, hash, before, home, n - 1);
    }
  }

  lemma FirstLap(config: Shared, hash: string -> nat, home: string) returns (bus: Bus)
    requires config(home).capacity > 0
    ensures Travelled(config, hash, bus, home, 0)
  {
    bus := OfferedFirst(config, hash, Nacked(config, home, 0), home);
  }

  lemma NackedBefore(config: Shared, home: string, n: nat)
    requires DestAt(config, home, n + 1).Some?
    ensures DestAt(config, home, n).Some?
  {}

  lemma NextLap(config: Shared, hash: string -> nat, bus: Bus, home: string, n: nat) returns (next: Bus)
    requires Travelled(config, hash, bus, home, n) && DestAt(config, home, n + 1).Some?
    requires config(DestAt(config, home, n + 1).value).capacity > 0
    ensures Travelled(config, hash, next, home, n + 1)
  {
    GoesThere(config, home, n);
    var m, d := Nacked(config, home, n), DestAt(config, home, n).value;
    var l: nat;
    next, l := Delivered(config, hash, bus, m, d);
    next := Received(config, hash, next, l, m, d);
    next := Begun(config, hash, next, l, m, d);
    next := NackedOnce(config, hash, next, l, home, n);
    next := OfferedAgain(config, hash, next, Nacked(config, home, n + 1), DestAt(config, home, n + 1).value);
  }

  // ---- the limit over all runs ----------------------------------------------------------------------

  /** A message sent fresh to `home` has been handled there at most max(1, limit) times. */
  ghost function Limited(config: Shared, home: string): Message -> bool {
    (m: Message) => m.home == home && m.sent == 0 ==> WithinLimit(config, m)
  }

  lemma ChainIsLimited(config: Shared, home: string, m: Message)
    requires NoReturn(config, home) && Chained(config, m)
    ensures Limited(config, home)(m)
  {
    if m.home == home && m.sent == 0 { HandledAtMostLimit(config, m); }
  }

  lemma LivelyIsLimited(config: Shared, home: string, bus: Bus)
    requires NoReturn(config, home) && Lively(config, bus)
    ensures All(bus, Limited(config, home))
  {
    forall m | Chained(config, m)
      ensures Limited(config, home)(m)
    {
      ChainIsLimited(config, home, m);
    }
    forall i | 0 <= i < |bus.listeners|
      ensures ListenerAll(bus.listeners[i], Limited(config, home))
    {
      assert ListenerFlies(config, bus.listeners[i]);
    }
  }

  /** With a chain of dead letters back home some run handles a message there too often. */
  lemma SomeRunBreaksLimit(config: Shared, hash: string -> nat, home: string, n: nat) returns (bus: Bus)
    requires n >= 1 && Dead(config, home, n) == Some(home) && forall d :: config(d).capacity > 0
    ensures Reached(config, hash, bus) && !All(bus, Limited(config, home))
  {
    var i := ChainIsReached(config, home, n);
    FirstDead(config, home, n);
    LeavesHome(config, home, i);
    bus := NackedTravels(config, hash, home, i + 1);
    NackedTooOften(config, home, i);
    NotAll(bus, Limited(config, home));
  }

  lemma LeavesHome(config: Shared, home: string, i: nat)
    requires DestAt(config, home, i) == Some(home) && DeadOf(config, home).Some?
    ensures DestAt(config, home, i + 1).Some?
  {}

  lemma NackedTooOften(config: Shared, home: string, i: nat)
    requires GoesTo(config, home, i + 1) && DestAt(config, home, i) == Some(home)
    requires i >= 1 && i >= config(home).limit
    ensures !Limited(config, home)(Nacked(config, home, i + 1))
  {
    BackTooOften(config, home, i);
  }

  lemma NotAll(bus: Bus, q: Message -> bool)
    requires |bus.waiting| >= 1 && !q(bus.waiting[0].msg)
    ensures !All(bus, q)
  {}

  lemma {:induction false} FirstDead(config: Shared, home: string, n: nat)
    requires n >= 1 && Dead(config, home, n).Some?
    ensures DeadOf(config, home).Some?
    decreases n
  {
    if n == 1 {
      assert Dead(config, home, 0) == Some(home);
    } else {
      FirstDead(config, home, n - 1);
    }
  }

  /** In every state that the bus can reach, every message sent fresh to `home` has been handled there at most
      max(1, limit) times, exactly if no chain of dead letters leads back there. */
  lemma LimitHoldsInRunsIff(config: Shared, hash: string -> nat, home: string)
    requires forall d :: config(d).capacity > 0
    ensures (forall bus :: Reached(config, hash, bus) ==> All(bus, Limited(config, home))) <==> NoReturn(config, home)
  {
    if NoReturn(config, home) {
      forall bus | Reached(config, hash, bus)
        ensures All(bus, Limited(config, home))
      {
        ReachedIsLively(config, hash, bus);
        LivelyIsLimited(config, home, bus);
      }
    } else {
      var n: nat :| n >= 1 && Dead(config, home, n) == Some(home);
      var bus := SomeRunBreaksLimit(config, hash, home, n);
    }
  }
}
