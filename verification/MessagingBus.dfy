/** The in-process message bus of `messaging/mod.rs` as a state machine over its atomic steps. */
module MessagingBus {
  import opened Wrappers

  const U32 := 0x1_0000_0000
  const USIZE := 0x1_0000_0000_0000_0000

  type u32 = n: int | 0 <= n < U32

  datatype Ack = Accept | Reject | Retry

  datatype Options = Options(limit: u32, deadLetter: Option<string>, capacity: nat, concurrency: Option<nat>)

  /** One call of a handler: where, with which count, what it answered, and whether a requeue was announced. */
  datatype Handling = Handling(dest: string, count: u32, ack: Ack, requeue: bool)

  /** `token` stands for headers and body. `home`, `sent` and `life` record where the message was sent, with which
      count, and what happened to it. */
  datatype Message = Message(token: nat, key: Option<string>, count: u32, home: string, sent: u32, life: seq<Handling>)

  /** A listener: its channel buffer, the message its consumer has taken but not begun, the running handlers.
      `queued` and `begun` record what went in and what was handed to a handler, in order. */
  datatype Listener = Listener(dest: string, opts: Options, buffer: seq<Message>, hand: seq<Message>,
                               jobs: seq<Message>, alive: bool, queued: seq<nat>, begun: seq<nat>)

  datatype DestState = DestState(listeners: seq<nat>, roundRobin: nat)

  /** A detached send that has not looked for a listener yet. */
  datatype Unsent = Unsent(msg: Message, dest: string)

  /** A send that holds a sender of a listener of `dest`: a caller's, blocking or not, or a detached one. */
  datatype Waiting = Waiting(msg: Message, listener: nat, dest: string, client: bool, blocking: bool)

  datatype Reason = Exhausted | NoListeners | Closed

  datatype Drop = Drop(msg: Message, reason: Reason)

  datatype Bus = Bus(
    listeners: seq<Listener>, dests: map<string, DestState>, unsent: seq<Unsent>, waiting: seq<Waiting>,
    acked: seq<Message>, rejected: seq<Message>, dropped: seq<Drop>, accepted: multiset<nat>)

  const EMPTY := Bus([], map[], [], [], [], [], [], multiset{})

  // ---- addresses ------------------------------------------------------------------------------

  /** What follows the first "://", or all of it. */
  function DestName(addr: string): string {
    match AfterScheme(addr) case Some(name) => name case None => addr
  }

  function AfterScheme(addr: string): Option<string> {
    if |addr| < 3 then None
    else if addr[0] == ':' && addr[1] == '/' && addr[2] == '/' then Some(addr[3..])
    else AfterScheme(addr[1..])
  }

  /** The address of a consumer's own destination. */
  function Address(name: string): string {
    ['c', 'h', 'a', 'n', ':', '/', '/'] + name
  }

  /** A requeue goes back where the message came from, whatever the name. */
  lemma RequeueAddress(name: string)
    ensures DestName(Address(name)) == name
  {
    var a := Address(name);
    assert AfterScheme(a[4..]) == Some(a[7..]);
    assert a[1..][1..] == a[2..] && a[2..][1..] == a[3..] && a[3..][1..] == a[4..];
    assert AfterScheme(a[2..]) == AfterScheme(a[4..]);
    assert AfterScheme(a) == AfterScheme(a[2..]);
  }

  /** The name of a destination is what follows its scheme, whatever that is; without one it is all of the address. */
  lemma {:induction false} SchemeIsDropped(scheme: string, name: string)
    requires ':' !in scheme
    ensures DestName(scheme + "://" + name) == name && DestName(scheme) == scheme
    ensures AfterScheme(scheme + "://" + name) == Some(name) && AfterScheme(scheme) == None
    decreases |scheme|
  {
    var s := scheme + "://" + name;
    if scheme == [] {
      assert s == "://" + name && s[3..] == name;
    } else {
      assert scheme[0] in scheme && s[0] == scheme[0] && s[1..] == scheme[1..] + "://" + name;
      SchemeIsDropped(scheme[1..], name);
    }
  }

  predicate SchemeAt(s: string, i: nat) {
    i + 3 <= |s| && s[i] == ':' && s[i + 1] == '/' && s[i + 2] == '/'
  }

  /** An address without "://" in it is a name. */
  lemma {:induction false} NameIsKept(s: string)
    requires forall i: nat :: !SchemeAt(s, i)
    ensures DestName(s) == s && AfterScheme(s) == None
    decreases |s|
  {
    if |s| >= 3 {
      assert !SchemeAt(s, 0);
      forall i: nat
        ensures !SchemeAt(s[1..], i)
      {
        assert !SchemeAt(s, i + 1);
      }
      NameIsKept(s[1..]);
    }
  }

  // ---- pick ---------------------------------------------------------------------------------

  function Live(listeners: seq<Listener>, ids: seq<nat>): seq<nat> {
    if ids == [] then []
    else (if ids[0] < |listeners| && listeners[ids[0]].alive then [ids[0]] else []) + Live(listeners, ids[1..])
  }

  /** The destination's table after dropping dead listeners, and the listener chosen. */
  function Pick(hash: string -> nat, listeners: seq<Listener>, state: DestState,
                key: Option<string>): (DestState, Option<nat>) {
    var live := Live(listeners, state.listeners);
    if live == [] then (state.(listeners := live), None)
    else match key
      case Some(k) => (state.(listeners := live), Some(live[hash(k) % |live|]))
      case None => (DestState(live, (state.roundRobin + 1) % USIZE), Some(live[state.roundRobin % |live|]))
  }

  function PickAt(hash: string -> nat, bus: Bus, dest: string, key: Option<string>): (Bus, Option<nat>) {
    if dest !in bus.dests then (bus, None) else
      var (state, l) := Pick(hash, bus.listeners, bus.dests[dest], key);
      (bus.(dests := bus.dests[dest := state]), l)
  }

  // ---- steps --------------------------------------------------------------------------------

  datatype Step =
    | AddListener(dest: string, opts: Options)
    | Send(dest: string, key: Option<string>, msg: Message, blocking: bool)
    | Deliver(w: nat)
    | Cancel(w: nat)
    | Receive(l: nat)
    | Begin(l: nat)
    | Finish(l: nat, j: nat, ack: Ack)
    | PickSend(u: nat)
    | Exit(l: nat)
    | Stop

  function Without<T>(s: seq<T>, i: nat): seq<T>
    requires i < |s|
  {
    s[..i] + s[i + 1..]
  }

  predicate HasRoom(l: Listener) {
    |l.buffer| < l.opts.capacity
  }

  /** A consumer without a concurrency bound handles one message at a time. */
  predicate MayReceive(l: Listener) {
    l.alive && l.buffer != [] && l.hand == [] && (l.opts.concurrency.None? ==> l.jobs == [])
  }

  predicate MayBegin(l: Listener) {
    && |l.hand| == 1
    && match l.opts.concurrency
       case None => l.jobs == []
       case Some(n) => |l.jobs| < if n == 0 then 1 else n
  }

  /** Someone can still send to listener `l`. */
  predicate HasSender(bus: Bus, l: nat) {
    || (exists d :: d in bus.dests && l in bus.dests[d].listeners)
    || (exists i :: 0 <= i < |bus.waiting| && bus.waiting[i].listener == l)
  }

  predicate Fresh(msg: Message, dest: string) {
    msg.life == [] && msg.home == dest && msg.sent == msg.count
  }

  predicate Enabled(bus: Bus, step: Step) {
    match step
    case AddListener(_, opts) => opts.capacity > 0
    case Send(dest, _, msg, _) => Fresh(msg, dest)
    case Deliver(w) =>
      && w < |bus.waiting| && bus.waiting[w].listener < |bus.listeners|
      && (bus.listeners[bus.waiting[w].listener].alive && bus.waiting[w].blocking ==>
            HasRoom(bus.listeners[bus.waiting[w].listener]))
    case Cancel(w) => w < |bus.waiting| && bus.waiting[w].client
    case Receive(l) => l < |bus.listeners| && MayReceive(bus.listeners[l])
    case Begin(l) => l < |bus.listeners| && MayBegin(bus.listeners[l])
    case Finish(l, j, _) => l < |bus.listeners| && j < |bus.listeners[l].jobs|
    case PickSend(u) => u < |bus.unsent|
    case Exit(l) =>
      l < |bus.listeners| && bus.listeners[l].alive && bus.listeners[l].buffer == [] && bus.listeners[l].hand == [] &&
      !HasSender(bus, l)
    case Stop => true
  }

  function Enqueue(l: Listener, msg: Message): Listener {
    l.(buffer := l.buffer + [msg], queued := l.queued + [msg.token])
  }

  /** What `process` makes of a handler's answer. */
  function Handled(l: Listener, msg: Message, ack: Ack): Message {
    if ack != Retry then msg.(life := msg.life + [Handling(l.dest, msg.count, ack, false)]) else
      var count := (msg.count + 1) % U32;
      msg.(count := count, life := msg.life + [Handling(l.dest, msg.count, ack, count < l.opts.limit)])
  }

  function AfterHandler(bus: Bus, l: Listener, msg: Message, ack: Ack): Bus {
    match ack
    case Accept => bus.(acked := bus.acked + [msg])
    case Reject => bus.(rejected := bus.rejected + [msg])
    case Retry =>
      if msg.count < l.opts.limit then bus.(unsent := bus.unsent + [Unsent(msg, DestName(Address(l.dest)))])
      else match l.opts.deadLetter
        case Some(addr) => bus.(unsent := bus.unsent + [Unsent(msg, DestName(addr))])
        case None => bus.(dropped := bus.dropped + [Drop(msg, Exhausted)])
  }

  function Apply(hash: string -> nat, bus: Bus, step: Step): Bus
    requires Enabled(bus, step)
  {
    match step
    case AddListener(dest, opts) =>
      var state := if dest in bus.dests then bus.dests[dest] else DestState([], 0);
      bus.(listeners := bus.listeners + [Listener(dest, opts, [], [], [], true, [], [])],
           dests := bus.dests[dest := state.(listeners := state.listeners + [|bus.listeners|])])
    case Send(dest, key, msg, blocking) => ApplySend(hash, bus, dest, key, msg, blocking)
    case Deliver(w) => ApplyDeliver(bus, w)
    case Cancel(w) => bus.(waiting := Without(bus.waiting, w))
    case Receive(l) =>
      var li := bus.listeners[l];
      bus.(listeners := bus.listeners[l := li.(buffer := li.buffer[1..], hand := [li.buffer[0]])])
    case Begin(l) =>
      var li := bus.listeners[l];
      bus.(listeners := bus.listeners[l := li.(hand := [], jobs := li.jobs + li.hand,
                                               begun := li.begun + [li.hand[0].token])])
    case Finish(l, j, ack) =>
      var li := bus.listeners[l];
      AfterHandler(bus.(listeners := bus.listeners[l := li.(jobs := Without(li.jobs, j))]), li,
                   Handled(li, li.jobs[j], ack), ack)
    case PickSend(u) => ApplyPickSend(hash, bus, u)
    case Exit(l) => bus.(listeners := bus.listeners[l := bus.listeners[l].(alive := false)])
    case Stop => bus.(dests := map[])
  }

  /** Picks a listener by the key given with the call, else the message's own; without one the caller gets an
      error. The send itself is a later step. */
  function ApplySend(hash: string -> nat, bus: Bus, dest: string, key: Option<string>, msg: Message,
                     blocking: bool): Bus {
    var (picked, l) := PickAt(hash, bus, dest, if key.Some? then key else msg.key);
    if l.None? then picked else picked.(waiting := picked.waiting + [Waiting(msg, l.value, dest, true, blocking)])
  }

  /** The message enters the buffer, or the send fails: on a closed channel, or on a full buffer if it does
      not block. A caller gets the error; a detached send drops the message. */
  function ApplyDeliver(bus: Bus, w: nat): Bus
    requires w < |bus.waiting| && bus.waiting[w].listener < |bus.listeners|
  {
    var wait := bus.waiting[w];
    var li := bus.listeners[wait.listener];
    var rest := bus.(waiting := Without(bus.waiting, w));
    if !li.alive then
      if wait.client then rest else rest.(dropped := rest.dropped + [Drop(wait.msg, Closed)])
    else if wait.client && !wait.blocking && !HasRoom(li) then rest
    else
      rest.(listeners := bus.listeners[wait.listener := Enqueue(li, wait.msg)],
            accepted := if wait.client then rest.accepted + multiset{wait.msg.token} else rest.accepted)
  }

  function ApplyPickSend(hash: string -> nat, bus: Bus, u: nat): Bus
    requires u < |bus.unsent|
  {
    var send := bus.unsent[u];
    var (picked, l) := PickAt(hash, bus, send.dest, send.msg.key);
    var rest := picked.(unsent := Without(bus.unsent, u));
    if l.None? then rest.(dropped := rest.dropped + [Drop(send.msg, NoListeners)])
    else rest.(waiting := rest.waiting + [Waiting(send.msg, l.value, send.dest, false, true)])
  }

  // ---- where the messages are ------------------------------------------------------------------

  function Sum<T>(s: seq<T>, f: T -> nat): nat {
    if s == [] then 0 else f(s[0]) + Sum(s[1..], f)
  }

  function OfMessage(t: nat): Message -> nat {
    (m: Message) => if m.token == t then 1 else 0
  }

  function OfUnsent(t: nat): Unsent -> nat {
    (u: Unsent) => if u.msg.token == t then 1 else 0
  }

  /** A caller's own blocking send is not accepted before it is in the buffer. */
  function OfWaiting(t: nat): Waiting -> nat {
    (w: Waiting) => if !w.client && w.msg.token == t then 1 else 0
  }

  function OfDrop(t: nat): Drop -> nat {
    (d: Drop) => if d.msg.token == t then 1 else 0
  }

  function Holds(l: Listener, t: nat): nat {
    Sum(l.buffer, OfMessage(t)) + Sum(l.hand, OfMessage(t)) + Sum(l.jobs, OfMessage(t))
  }

  function OfListener(t: nat): Listener -> nat {
    (l: Listener) => Holds(l, t)
  }

  /** How often a message is settled. */
  function Settled(bus: Bus, t: nat): nat {
    Sum(bus.acked, OfMessage(t)) + Sum(bus.rejected, OfMessage(t)) + Sum(bus.dropped, OfDrop(t))
  }

  /** How often a message is there, over every place it can be. */
  function Copies(bus: Bus, t: nat): nat {
    Sum(bus.listeners, OfListener(t)) + Sum(bus.unsent, OfUnsent(t)) + Sum(bus.waiting, OfWaiting(t)) + Settled(bus, t)
  }

  lemma {:induction false} SumConcat<T>(a: seq<T>, b: seq<T>, f: T -> nat)
    ensures Sum(a + b, f) == Sum(a, f) + Sum(b, f)
  {
    if a == [] {
      assert a + b == b;
    } else {
      assert (a + b)[0] == a[0] && (a + b)[1..] == a[1..] + b;
      SumConcat(a[1..], b, f);
    }
  }

  lemma SumAppend<T>(s: seq<T>, x: T, f: T -> nat)
    ensures Sum(s + [x], f) == Sum(s, f) + f(x)
  {
    SumConcat(s, [x], f);
  }

  lemma SumSplit<T>(s: seq<T>, i: nat, f: T -> nat)
    requires i < |s|
    ensures Sum(s, f) == Sum(s[..i], f) + f(s[i]) + Sum(s[i + 1..], f)
  {
    assert s == s[..i] + s[i..] && s[i..][1..] == s[i + 1..];
    SumConcat(s[..i], s[i..], f);
  }

  lemma SumWithout<T>(s: seq<T>, i: nat, f: T -> nat)
    requires i < |s|
    ensures Sum(s, f) == Sum(Without(s, i), f) + f(s[i])
  {
    SumSplit(s, i, f);
    SumConcat(s[..i], s[i + 1..], f);
  }

  lemma SumUpdate<T>(s: seq<T>, i: nat, x: T, f: T -> nat)
    requires i < |s|
    ensures Sum(s[i := x], f) + f(s[i]) == Sum(s, f) + f(x)
  {
    var t := s[i := x];
    SumSplit(s, i, f);
    SumSplit(t, i, f);
    assert t[..i] == s[..i] && t[i + 1..] == s[i + 1..];
  }
}
