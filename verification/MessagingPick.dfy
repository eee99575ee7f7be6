/** The provider's table of destinations, updated in place by `pick`, `add_listener` and `stop`. */
module MessagingPick {
  import opened Wrappers
  import opened Seqs
  import opened MessagingBus
  import opened MessagingSafety

  lemma LiveStep(listeners: seq<Listener>, ids: seq<nat>, i: nat, live: seq<nat>)
    requires i < |ids|
    ensures live + Live(listeners, ids[i..]) ==
            (if ids[i] < |listeners| && listeners[ids[i]].alive then live + [ids[i]] else live)
            + Live(listeners, ids[i + 1..])
  {
    var rest := ids[i..];
    assert rest[0] == ids[i] && rest[1..] == ids[i + 1..];
    Assoc(live, [ids[i]], Live(listeners, ids[i + 1..]));
    assert [] + Live(listeners, ids[i + 1..]) == Live(listeners, ids[i + 1..]);
  }

  class Destinations {
    var dests: map<string, DestState>

    constructor ()
      ensures dests == map[]
    {
      dests := map[];
    }

    /** Keeps the handles whose channel is open. */
    static method Retain(listeners: seq<Listener>, ids: seq<nat>) returns (live: seq<nat>)
      ensures live == Live(listeners, ids)
    {
      live := [];
      for i := 0 to |ids|
        invariant live + Live(listeners, ids[i..]) == Live(listeners, ids)
      {
        LiveStep(listeners, ids, i, live);
        if ids[i] < |listeners| && listeners[ids[i]].alive { live := live + [ids[i]]; }
      }
    }

    method Pick(hash: string -> nat, listeners: seq<Listener>, name: string, key: Option<string>)
      returns (l: Option<nat>)
      modifies this
      ensures name !in old(dests) ==> dests == old(dests) && l.None?
      ensures name in old(dests) ==>
                (old(dests)[name := MessagingBus.Pick(hash, listeners, old(dests)[name], key).0],
                 MessagingBus.Pick(hash, listeners, old(dests)[name], key).1) == (dests, l)
    {
      if name !in dests { return None; }
      var state := dests[name];
      var live := Retain(listeners, state.listeners);
      if live == [] {
        dests := dests[name := state.(listeners := live)];
        return None;
      }
      var idx;
      match key {
        case Some(k) => idx := hash(k) % |live|;
        case None =>
          idx := state.roundRobin % |live|;
          state := state.(roundRobin := (state.roundRobin + 1) % USIZE);
      }
      dests := dests[name := state.(listeners := live)];
      return Some(live[idx]);
    }

    method AddListener(name: string, l: nat)
      modifies this
      ensures dests.Keys == old(dests).Keys + {name}
      ensures forall d :: d in old(dests) && d != name ==> dests[d] == old(dests)[d]
      ensures dests[name].listeners == (if name in old(dests) then old(dests)[name].listeners else []) + [l]
      ensures dests[name].roundRobin == if name in old(dests) then old(dests)[name].roundRobin else 0
    {
      var state := if name in dests then dests[name] else DestState([], 0);
      assert [] + [l] == [l];
      dests := dests[name := state.(listeners := state.listeners + [l])];
    }

    method Stop()
      modifies this
      ensures dests == map[]
    {
      dests := map[];
    }
  }

  /** While the same listeners stay open, one key always goes to one listener. */
  lemma KeyAffinity(hash: string -> nat, listeners: seq<Listener>, later: seq<Listener>, a: DestState, b: DestState,
                    key: string)
    requires Live(listeners, a.listeners) == Live(later, b.listeners)
    ensures Pick(hash, listeners, a, Some(key)).1 == Pick(hash, later, b, Some(key)).1
  {}

  /** The key of a send is the one given with the call, else the message's own; a message that is sent on goes by its
      own key. */
  lemma SendGoesByKey(hash: string -> nat, bus: Bus, dest: string, key: Option<string>, msg: Message, blocking: bool)
    requires dest in bus.dests && Live(bus.listeners, bus.dests[dest].listeners) != []
    ensures var used := if key == None then msg.key else key;
            var l := Pick(hash, bus.listeners, bus.dests[dest], used).1;
            && l.Some?
            && ApplySend(hash, bus, dest, key, msg, blocking).waiting ==
               bus.waiting + [Waiting(msg, l.value, dest, true, blocking)]
    ensures bus.unsent != [] && bus.unsent[0] == Unsent(msg, dest) ==>
            var l := Pick(hash, bus.listeners, bus.dests[dest], msg.key).1;
            l.Some? && ApplyPickSend(hash, bus, 0).waiting == bus.waiting + [Waiting(msg, l.value, dest, false, true)]
  {}

  /** The first message without a key goes to the first listener of its destination. */
  lemma FirstGoesFirst(hash: string -> nat, bus: Bus, dest: string, a: Options, b: Options)
    requires dest !in bus.dests && a.capacity > 0 && b.capacity > 0
    ensures var one := Apply(hash, bus, Step.AddListener(dest, a));
            var two := Apply(hash, one, Step.AddListener(dest, b));
            PickAt(hash, two, dest, None).1 == Some(|bus.listeners|)
  {
    var one := Apply(hash, bus, Step.AddListener(dest, a));
    var two := Apply(hash, one, Step.AddListener(dest, b));
    var n := |bus.listeners|;
    assert two.dests[dest] == DestState([] + [n] + [n + 1], 0) && two.listeners[n].alive && two.listeners[n + 1].alive;
    assert ([] + [n] + [n + 1])[1..] == [n + 1] && [n + 1][1..] == [];
    assert Live(two.listeners, [n + 1]) == [n + 1];
    assert Live(two.listeners, [n] + [n + 1]) == [n] + [n + 1];
  }

  /** A key goes to the live listener that its hash names, counted round; so every live listener is the one of some
      hash, and keys with different remainders go to different places. */
  lemma KeyChooses(hash: string -> nat, listeners: seq<Listener>, state: DestState, key: string, i: nat, round: nat)
    requires var live := Live(listeners, state.listeners); i < |live| && hash(key) == round * |live| + i
    ensures Pick(hash, listeners, state, Some(key)).1 == Some(Live(listeners, state.listeners)[i])
    ensures Pick(hash, listeners, state, Some(key)).0.roundRobin == state.roundRobin
  {
    Remainder(round, |Live(listeners, state.listeners)|, i, hash(key));
  }

  ghost function PickKeyless(hash: string -> nat, listeners: seq<Listener>, state: DestState, n: nat): (r: DestState)
    decreases n
  {
    if n == 0 then state else PickKeyless(hash, listeners, Pick(hash, listeners, state, None).0, n - 1)
  }

  /** Without keys, the n-th pick after this one is n places further round the same live listeners; the counter
      starts again at zero after the largest number it can hold. */
  lemma {:induction false} RoundRobin(hash: string -> nat, listeners: seq<Listener>, state: DestState, n: nat)
    requires Live(listeners, state.listeners) == state.listeners != [] && state.roundRobin < USIZE
    ensures var after := PickKeyless(hash, listeners, state, n);
            && after == DestState(state.listeners, (state.roundRobin + n) % USIZE)
            && Pick(hash, listeners, after, None).1 ==
                Some(state.listeners[(state.roundRobin + n) % USIZE % |state.listeners|])
    decreases n
  {
    if n > 0 {
      RoundRobin(hash, listeners, DestState(state.listeners, (state.roundRobin + 1) % USIZE), n - 1);
      CountsOn(state.roundRobin, n - 1);
    }
  }

  lemma CountsOn(counter: nat, n: nat)
    requires counter < USIZE
    ensures ((counter + 1) % USIZE + n) % USIZE == (counter + 1 + n) % USIZE
  {
    if counter + 1 == USIZE { assert (USIZE + n) % USIZE == n % USIZE; }
  }

  lemma OneMore(len: nat, b: nat)
    ensures len * (b + 1) == len * b + len
  {}

  lemma {:induction false} Times(len: nat, a: nat, b: nat)
    requires a < b
    ensures len * a + len <= len * b
    decreases b
  {
    OneMore(len, b - 1);
    if a < b - 1 { Times(len, a, b - 1); }
  }

  lemma OneQuotient(len: nat, q: nat, r: nat, q': nat, r': nat)
    requires r < len && r' < len && len * q + r == len * q' + r'
    ensures r == r'
  {
    if q < q' { Times(len, q, q'); }
    if q' < q { Times(len, q', q); }
  }

  lemma Remainder(q: nat, len: nat, r: nat, x: nat)
    requires r < len && x == len * q + r
    ensures x % len == r
  {
    OneQuotient(len, q, r, x / len, x % len);
  }

  lemma Quotient(x: nat, len: nat)
    requires len > 0
    ensures x == len * (x / len) + x % len
  {}

  lemma TurnWithin(counter: nat, len: nat) returns (n: nat)
    requires len > 0
    ensures n < len && (counter + n) % len == len - 1
  {
    Quotient(counter, len);
    n := len - 1 - counter % len;
    Remainder(counter / len, len, len - 1, counter + n);
  }

  lemma Wrapped(counter: nat, n: nat)
    requires counter < USIZE
    ensures counter + n < USIZE ==> (counter + n) % USIZE == counter + n
    ensures USIZE <= counter + n < 2 * USIZE ==> (counter + n) % USIZE == counter + n - USIZE
  {}

  /** A number of keyless picks after which it is the turn of the last listener. */
  lemma TurnOfLast(counter: nat, len: nat) returns (n: nat)
    requires counter < USIZE && 0 < len <= USIZE
    ensures n < 2 * len && (counter + n) % USIZE % len == len - 1
  {
    n := TurnWithin(counter, len);
    if counter + n >= USIZE {
      n := USIZE - counter + len - 1;
      Remainder(0, len, len - 1, len - 1);
    }
    Wrapped(counter, n);
  }

  /** A listener that has just been added gets its turn within twice as many keyless picks as there are listeners,
      even if the counter starts again. */
  lemma AddedGetsItsTurn(hash: string -> nat, listeners: seq<Listener>, state: DestState, l: nat) returns (n: nat)
    requires Live(listeners, state.listeners) == state.listeners && IsOpen(listeners, l)
    requires state.roundRobin < USIZE && |state.listeners| < USIZE
    ensures var added := state.(listeners := state.listeners + [l]);
            n < 2 * |added.listeners|
                && Pick(hash, listeners, PickKeyless(hash, listeners, added, n), None).1 == Some(l)
  {
    var added := state.(listeners := state.listeners + [l]);
    LiveAppend(listeners, state.listeners, l);
    n := TurnOfLast(state.roundRobin, |added.listeners|);
    RoundRobin(hash, listeners, added, n);
  }

  lemma {:induction false} LiveAppend(listeners: seq<Listener>, ids: seq<nat>, l: nat)
    requires IsOpen(listeners, l)
    ensures Live(listeners, ids + [l]) == Live(listeners, ids) + [l]
  {
    if ids == [] {
      assert ids + [l] == [l] && [l][1..] == [];
    } else {
      assert (ids + [l])[0] == ids[0] && (ids + [l])[1..] == ids[1..] + [l];
      LiveAppend(listeners, ids[1..], l);
    }
  }

  // ---- after a stop --------------------------------------------------------------------------------------

  lemma {:induction false} SilentStays(hash: string -> nat, bus: Bus, steps: seq<Step>, dest: string)
    requires dest !in bus.dests && Possible(hash, bus, steps)
    requires forall i :: 0 <= i < |steps| ==> !(steps[i].AddListener? && steps[i].dest == dest)
    ensures dest !in After(hash, bus, steps).dests
    decreases |steps|
  {
    if steps != [] {
      assert !(steps[0].AddListener? && steps[0].dest == dest);
      SilentStays(hash, Apply(hash, bus, steps[0]), steps[1..], dest);
    }
  }

  /** After a stop, in every run, no send finds a listener at a destination until one is added there. */
  lemma SilentAfterStop(hash: string -> nat, bus: Bus, steps: seq<Step>, dest: string, key: Option<string>)
    requires Possible(hash, Apply(hash, bus, Step.Stop), steps)
    requires forall i :: 0 <= i < |steps| ==> !(steps[i].AddListener? && steps[i].dest == dest)
    ensures PickAt(hash, After(hash, Apply(hash, bus, Step.Stop), steps), dest, key).1.None?
  {
    SilentStays(hash, Apply(hash, bus, Step.Stop), steps, dest);
  }
}
