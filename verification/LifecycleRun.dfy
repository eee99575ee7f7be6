/** The start, stop and sweep sequences of `lifecycle/manager.rs` as the states they pass through. */
module LifecycleRun {
  import opened Wrappers
  import opened Seqs
  import opened LifecycleGraph
  import opened LifecycleTopo

  datatype State = Unknown | Starting | Running | Stopping | Stopped | Error

  type States = map<Id, State>

  /** How a component's own `start` or `stop` ends; `Hangs` is a call dropped by a timeout or by the caller. */
  datatype Outcome = Done | Fails | Hangs

  type World = Id -> Outcome

  type Reply = Result<(), LifecycleError>

  /** The states passed through, in order, and the reply. */
  datatype Run = Run(trace: seq<States>, reply: Reply)

  function Last(st: States, trace: seq<States>): States {
    if trace == [] then st else trace[|trace| - 1]
  }

  /** What follows `first` continues from the state it ended in. */
  function Then(first: Run, second: Run): Run {
    Run(first.trace + second.trace, second.reply)
  }

  // ---- one component -------------------------------------------------------------------

  function StartOne(st: States, id: Id, world: World): Run {
    if id !in st then Run([], Err(ComponentNotFound(id)))
    else if st[id] == Running || st[id] == Starting then Run([], Ok(()))
    else match world(id)
      case Done => Run([st[id := Starting], st[id := Running]], Ok(()))
      case Fails => Run([st[id := Starting], st[id := Error]], Err(Failed(id)))
      case Hangs => Run([st[id := Starting]], Err(Timeout(id)))
  }

  function StopOne(st: States, id: Id, world: World): Run {
    if id !in st then Run([], Err(ComponentNotFound(id)))
    else if st[id] == Stopped || st[id] == Unknown then Run([], Ok(()))
    else match world(id)
      case Done => Run([st[id := Stopping], st[id := Stopped]], Ok(()))
      case Fails => Run([st[id := Stopping], st[id := Error]], Err(Failed(id)))
      case Hangs => Run([st[id := Stopping]], Err(Timeout(id)))
  }

  /** A stop inside the best-effort sweep: whatever went wrong, the component ends in `Error`. */
  function SweepOne(st: States, id: Id, world: World): Run {
    var one := StopOne(st, id, world);
    if one.reply.Ok? then one
    else Run(one.trace + [Marked(Last(st, one.trace), id)], one.reply)
  }

  function Marked(st: States, id: Id): States {
    if id in st then st[id := Error] else st
  }

  // ---- sequences -----------------------------------------------------------------------

  function StartSeq(st: States, order: seq<Id>, world: World): Run {
    if order == [] then Run([], Ok(())) else
      var one := StartOne(st, order[0], world);
      if one.reply.Err? then one else Then(one, StartSeq(Last(st, one.trace), order[1..], world))
  }

  function StopSeq(st: States, order: seq<Id>, world: World): Run {
    if order == [] then Run([], Ok(())) else
      var one := StopOne(st, order[0], world);
      if one.reply.Err? then one else Then(one, StopSeq(Last(st, one.trace), order[1..], world))
  }

  /** Never gives up; replies with the first error. */
  function Sweep(st: States, order: seq<Id>, world: World): Run {
    if order == [] then Run([], Ok(())) else
      var one := SweepOne(st, order[0], world);
      var rest := Sweep(Last(st, one.trace), order[1..], world);
      Run(one.trace + rest.trace, if one.reply.Err? then one.reply else rest.reply)
  }

  // ---- what every step keeps --------------------------------------------------------------

  /** A running component has all its dependencies running. */
  ghost predicate Safe(g: Graph, st: States) {
    forall m, d :: m in st && st[m] == Running && d in DepsOf(g, m) ==> d in st && st[d] == Running
  }

  ghost predicate DepsRunning(g: Graph, st: States, id: Id) {
    forall d :: d in DepsOf(g, id) ==> d in st && st[d] == Running
  }

  predicate Idle(s: State) {
    s == Unknown || s == Stopped || s == Error
  }

  ghost predicate DependentsIdle(g: Graph, st: States, id: Id) {
    forall m :: m in st && id in DepsOf(g, m) ==> Idle(st[m])
  }

  /** The life of one component: which state may follow which. */
  predicate Follows(a: State, b: State) {
    match b
    case Unknown => false
    case Starting => a == Unknown || a == Stopped || a == Error || a == Stopping
    case Running => a == Starting
    case Stopping => a != Unknown && a != Stopped
    case Stopped => a == Stopping
    case Error => a == Starting || a == Stopping || a == Error
  }

  /** One component moves on: it starts with its dependencies running and stops with its dependents idle. */
  ghost predicate Moves(g: Graph, a: States, b: States, id: Id) {
    && id in a && id in b && b == a[id := b[id]] && Follows(a[id], b[id])
    && (b[id] == Starting || b[id] == Running ==> DepsRunning(g, a, id))
    && (b[id] == Stopping ==> DependentsIdle(g, a, id))
  }

  ghost predicate StepOk(g: Graph, a: States, b: States) {
    exists id :: Moves(g, a, b, id)
  }

  ghost predicate TraceOk(g: Graph, st: States, trace: seq<States>)
    decreases |trace|
  {
    trace == [] || (StepOk(g, st, trace[0]) && TraceOk(g, trace[0], trace[1..]))
  }

  lemma {:induction false} TraceConcat(g: Graph, st: States, a: seq<States>, b: seq<States>)
    ensures TraceOk(g, st, a + b) <==> TraceOk(g, st, a) && TraceOk(g, Last(st, a), b)
    ensures Last(Last(st, a), b) == Last(st, a + b)
    decreases |a|
  {
    if a == [] {
      assert a + b == b;
    } else {
      assert (a + b)[0] == a[0] && (a + b)[1..] == a[1..] + b;
      TraceConcat(g, a[0], a[1..], b);
    }
  }

  lemma StepKeepsSafe(g: Graph, a: States, b: States)
    requires Safe(g, a) && StepOk(g, a, b)
    ensures Safe(g, b)
  {
    var id :| Moves(g, a, b, id);
    forall m, d | m in b && b[m] == Running && d in DepsOf(g, m)
      ensures d in b && b[d] == Running
    {
      if d == id { assert a[m] == Running; }
    }
  }

  /** Along a well-behaved trace every state is safe. */
  lemma {:induction false} TraceKeepsSafe(g: Graph, st: States, trace: seq<States>)
    requires Safe(g, st) && TraceOk(g, st, trace)
    ensures forall i :: 0 <= i < |trace| ==> Safe(g, trace[i])
    ensures Safe(g, Last(st, trace))
    decreases |trace|
  {
    if trace != [] {
      StepKeepsSafe(g, st, trace[0]);
      TraceKeepsSafe(g, trace[0], trace[1..]);
    }
  }

  // ---- starting ------------------------------------------------------------------------------

  predicate Started(st: States, id: Id) {
    id in st && (st[id] == Running || st[id] == Starting)
  }

  ghost predicate NoneStarting(g: Graph, st: States, id: Id) {
    forall d :: d in DepsOf(g, id) ==> d in st && st[d] != Starting
  }

  /** No component still to be started waits for one that an earlier, dropped call left in `Starting`. */
  ghost predicate Unblocked(g: Graph, st: States, order: seq<Id>) {
    forall i :: 0 <= i < |order| && !Started(st, order[i]) ==> NoneStarting(g, st, order[i])
  }

  ghost predicate DepsAhead(g: Graph, st: States, ahead: seq<Id>, id: Id) {
    forall d :: d in DepsOf(g, id) ==> d in ahead || Started(st, d)
  }

  /** The rest of a dependency-first order, with what precedes it started. */
  ghost predicate Ready(g: Graph, st: States, order: seq<Id>) {
    && Distinct(order)
    && (forall i :: 0 <= i < |order| ==> order[i] in st)
    && (forall i :: 0 <= i < |order| ==> DepsAhead(g, st, order[..i], order[i]))
  }

  lemma OneStarted(g: Graph, st: States, id: Id, world: World)
    requires id in st && (Started(st, id) || DepsRunning(g, st, id))
    ensures TraceOk(g, st, StartOne(st, id, world).trace)
  {
    if !Started(st, id) {
      var a := st[id := Starting];
      assert Moves(g, st, a, id);
      assert StepOk(g, st, a);
      LastMove(g, st, a, id, Running);
      LastMove(g, st, a, id, Error);
    }
  }

  /** Between the two moves of one start the dependencies are still running. */
  lemma LastMove(g: Graph, st: States, a: States, id: Id, s: State)
    requires id in st && a == st[id := Starting] && st[id] != Running && DepsRunning(g, st, id)
    requires s == Running || s == Error
    ensures StepOk(g, a, st[id := s])
  {
    assert st[id := s] == a[id := s];
    assert Moves(g, a, st[id := s], id);
  }

  lemma StartOneState(st: States, id: Id, world: World)
    requires id in st && StartOne(st, id, world).reply.Ok?
    ensures Last(st, StartOne(st, id, world).trace) == if Started(st, id) then st else st[id := Running]
  {}

  lemma ReadyRest(g: Graph, st: States, order: seq<Id>, st': States)
    requires Ready(g, st, order) && order != []
    requires st' == if Started(st, order[0]) then st else st[order[0] := Running]
    ensures Ready(g, st', order[1..])
  {
    var rest := order[1..];
    forall i | 0 <= i < |rest|
      ensures DepsAhead(g, st', rest[..i], rest[i])
    {
      assert DepsAhead(g, st, order[..i + 1], order[i + 1]);
      assert order[..i + 1] == [order[0]] + rest[..i];
    }
  }

  lemma UnblockedRest(g: Graph, st: States, order: seq<Id>, st': States)
    requires Distinct(order) && order != []
    requires st' == if Started(st, order[0]) then st else st[order[0] := Running]
    requires Unblocked(g, st, order)
    ensures Unblocked(g, st', order[1..])
  {
    var rest := order[1..];
    forall i | 0 <= i < |rest| && !Started(st', rest[i])
      ensures NoneStarting(g, st', rest[i])
    {
      assert NoneStarting(g, st, order[i + 1]);
    }
  }

  lemma HeadIsReady(g: Graph, st: States, order: seq<Id>)
    requires Ready(g, st, order) && order != [] && Unblocked(g, st, order) && !Started(st, order[0])
    ensures DepsRunning(g, st, order[0])
  {
    assert DepsAhead(g, st, order[..0], order[0]);
    assert order[..0] == [];
  }

  lemma {:induction false} StartSafe(g: Graph, st: States, order: seq<Id>, world: World)
    requires Ready(g, st, order) && Unblocked(g, st, order)
    ensures TraceOk(g, st, StartSeq(st, order, world).trace)
    decreases |order|
  {
    if order != [] {
      if !Started(st, order[0]) { HeadIsReady(g, st, order); }
      OneStarted(g, st, order[0], world);
      var one := StartOne(st, order[0], world);
      if one.reply.Ok? {
        var st' := Last(st, one.trace);
        StartOneState(st, order[0], world);
        ReadyRest(g, st, order, st');
        UnblockedRest(g, st, order, st');
        StartSafe(g, st', order[1..], world);
        TraceConcat(g, st, one.trace, StartSeq(st', order[1..], world).trace);
      }
    }
  }

  lemma BlockedRest(g: Graph, st: States, order: seq<Id>, st': States)
    requires Distinct(order) && order != [] && order[0] in st
    requires st' == if Started(st, order[0]) then st else st[order[0] := Running]
    requires Unblocked(g, st', order[1..]) && (Started(st, order[0]) || DepsRunning(g, st, order[0]))
    ensures Unblocked(g, st, order)
  {
    var rest := order[1..];
    forall i | 0 <= i < |order| && !Started(st, order[i])
      ensures NoneStarting(g, st, order[i])
    {
      if i > 0 {
        assert rest[i - 1] == order[i];
        assert NoneStarting(g, st', rest[i - 1]);
      }
    }
  }

  /** If something is blocked and every start succeeds, some component starts too early. */
  lemma {:induction false} StartUnsafe(g: Graph, st: States, order: seq<Id>, world: World)
    requires Ready(g, st, order) && TraceOk(g, st, StartSeq(st, order, world).trace)
    requires forall id :: world(id) == Done
    ensures Unblocked(g, st, order)
    decreases |order|
  {
    if order != [] {
      var id, one := order[0], StartOne(st, order[0], world);
      var st' := Last(st, one.trace);
      StartOneState(st, id, world);
      TraceConcat(g, st, one.trace, StartSeq(st', order[1..], world).trace);
      if !Started(st, id) { FirstMove(g, st, id, one.trace); }
      ReadyRest(g, st, order, st');
      StartUnsafe(g, st', order[1..], world);
      BlockedRest(g, st, order, st');
    }
  }

  lemma FirstMove(g: Graph, st: States, id: Id, trace: seq<States>)
    requires TraceOk(g, st, trace) && trace != [] && id in st && st[id] != Starting && trace[0] == st[id := Starting]
    ensures DepsRunning(g, st, id)
  {
    var n :| Moves(g, st, trace[0], n);
    assert trace[0][id] == Starting;
  }

  ghost predicate AlwaysSafe(g: Graph, st: States, order: seq<Id>) {
    forall world :: TraceOk(g, st, StartSeq(st, order, world).trace)
  }

  /** Starting in dependency order is safe whatever the components do, exactly when nothing is blocked. */
  lemma StartSafeIff(g: Graph, st: States, order: seq<Id>)
    requires Ready(g, st, order)
    ensures AlwaysSafe(g, st, order) <==> Unblocked(g, st, order)
  {
    if Unblocked(g, st, order) {
      forall world
        ensures TraceOk(g, st, StartSeq(st, order, world).trace)
      {
        StartSafe(g, st, order, world);
      }
    }
    if AlwaysSafe(g, st, order) {
      assert TraceOk(g, st, StartSeq(st, order, AllDone()).trace);
      StartUnsafe(g, st, order, AllDone());
    }
  }

  function AllDone(): World {
    (_: Id) => Done
  }

  /** What a start leaves behind: all of the order started, or a failed or dropped start to blame; nothing else
      touched. */
  lemma {:induction false} StartEnds(st: States, order: seq<Id>, world: World)
    requires Distinct(order) && forall i :: 0 <= i < |order| ==> order[i] in st
    ensures var r := StartSeq(st, order, world); var end := Last(st, r.trace);
            && end.Keys == st.Keys
            && (forall n :: n in st && (n !in order || Started(st, n)) ==> end[n] == st[n])
            && (r.reply.Ok? ==> forall i :: 0 <= i < |order| && !Started(st, order[i]) ==> end[order[i]] == Running)
    ensures StartSeq(st, order, world).reply.Ok? <==>
            forall i :: 0 <= i < |order| && !Started(st, order[i]) ==> world(order[i]) == Done
    decreases |order|
  {
    if order != [] {
      var one := StartOne(st, order[0], world);
      if one.reply.Ok? {
        var st' := Last(st, one.trace);
        StartOneState(st, order[0], world);
        StartEnds(st', order[1..], world);
        TraceConcat(map[], st, one.trace, StartSeq(st', order[1..], world).trace);
        StartEndsStep(st, order, world, st');
      }
    }
  }

  lemma StartEndsStep(st: States, order: seq<Id>, world: World, st': States)
    requires Distinct(order) && order != [] && order[0] in st
    requires st' == if Started(st, order[0]) then st else st[order[0] := Running]
    ensures forall i :: 1 <= i < |order| ==>
            order[1..][i - 1] == order[i] && (Started(st', order[i]) <==> Started(st, order[i]))
    ensures order[0] !in order[1..]
    ensures forall n :: n in order <==> n == order[0] || n in order[1..]
  {
    HeadTail(order);
  }

  // ---- stopping ----------------------------------------------------------------------------------

  ghost predicate DependentsAhead(g: Graph, st: States, ahead: seq<Id>, id: Id) {
    forall m :: m in st && id in DepsOf(g, m) ==> m in ahead || Idle(st[m])
  }

  /** The rest of a dependents-first order, with what precedes it idle. */
  ghost predicate Clear(g: Graph, st: States, order: seq<Id>) {
    && Distinct(order)
    && (forall i :: 0 <= i < |order| ==> order[i] in st)
    && (forall i :: 0 <= i < |order| ==> DependentsAhead(g, st, order[..i], order[i]))
  }

  lemma ClearRest(g: Graph, st: States, order: seq<Id>, st': States)
    requires Clear(g, st, order) && order != []
    requires st'.Keys == st.Keys && Idle(st'[order[0]]) && forall n :: n in st && n != order[0] ==> st'[n] == st[n]
    ensures Clear(g, st', order[1..])
  {
    var rest := order[1..];
    forall i | 0 <= i < |rest|
      ensures DependentsAhead(g, st', rest[..i], rest[i])
    {
      assert DependentsAhead(g, st, order[..i + 1], order[i + 1]);
      assert order[..i + 1] == [order[0]] + rest[..i];
    }
  }

  lemma HeadIsClear(g: Graph, st: States, order: seq<Id>)
    requires Clear(g, st, order) && order != []
    ensures DependentsIdle(g, st, order[0])
  {
    assert DependentsAhead(g, st, order[..0], order[0]);
    assert order[..0] == [];
  }

  lemma OneStopped(g: Graph, st: States, id: Id, world: World)
    requires id in st && DependentsIdle(g, st, id)
    ensures TraceOk(g, st, StopOne(st, id, world).trace)
  {
    if st[id] != Stopped && st[id] != Unknown {
      var a := st[id := Stopping];
      assert Moves(g, st, a, id);
      assert StepOk(g, st, a);
      Settles(g, a, id, Stopped);
      Settles(g, a, id, Error);
      assert a[id := Stopped] == st[id := Stopped] && a[id := Error] == st[id := Error];
    }
  }

  lemma Settles(g: Graph, a: States, id: Id, s: State)
    requires id in a && (a[id] == Stopping || a[id] == Error) && (s == Error || (s == Stopped && a[id] == Stopping))
    ensures StepOk(g, a, a[id := s])
  {
    assert Moves(g, a, a[id := s], id);
  }

  lemma OneSwept(g: Graph, st: States, id: Id, world: World)
    requires id in st && DependentsIdle(g, st, id)
    ensures TraceOk(g, st, SweepOne(st, id, world).trace)
  {
    OneStopped(g, st, id, world);
    var one := StopOne(st, id, world);
    if one.reply.Err? {
      var a := Last(st, one.trace);
      Settles(g, a, id, Error);
      TraceConcat(g, st, one.trace, [a[id := Error]]);
    }
  }

  lemma StopOneState(st: States, id: Id, world: World)
    requires id in st && StopOne(st, id, world).reply.Ok?
    ensures Last(st, StopOne(st, id, world).trace) == if st[id] == Unknown then st else st[id := Stopped]
  {}

  lemma SweepOneState(st: States, id: Id, world: World)
    requires id in st
    ensures Last(st, SweepOne(st, id, world).trace) ==
            if st[id] == Unknown then st else st[id := if SweepOne(st, id, world).reply.Ok? then Stopped else Error]
  {}

  /** Stopping in dependents-first order is safe from any state, whatever the components do. */
  lemma {:induction false} StopSafe(g: Graph, st: States, order: seq<Id>, world: World)
    requires Clear(g, st, order)
    ensures TraceOk(g, st, StopSeq(st, order, world).trace)
    decreases |order|
  {
    if order != [] {
      HeadIsClear(g, st, order);
      OneStopped(g, st, order[0], world);
      var one := StopOne(st, order[0], world);
      if one.reply.Ok? {
        var st' := Last(st, one.trace);
        StopOneState(st, order[0], world);
        ClearRest(g, st, order, st');
        StopSafe(g, st', order[1..], world);
        TraceConcat(g, st, one.trace, StopSeq(st', order[1..], world).trace);
      }
    }
  }

  lemma {:induction false} SweepSafe(g: Graph, st: States, order: seq<Id>, world: World)
    requires Clear(g, st, order)
    ensures TraceOk(g, st, Sweep(st, order, world).trace)
    decreases |order|
  {
    if order != [] {
      HeadIsClear(g, st, order);
      OneSwept(g, st, order[0], world);
      var one := SweepOne(st, order[0], world);
      var st' := Last(st, one.trace);
      SweepOneState(st, order[0], world);
      ClearRest(g, st, order, st');
      SweepSafe(g, st', order[1..], world);
      TraceConcat(g, st, one.trace, Sweep(st', order[1..], world).trace);
    }
  }

  /** Whether stopping this component has anything to do, and it does not go well. */
  predicate Troubles(st: States, world: World, id: Id) {
    id in st && st[id] != Unknown && st[id] != Stopped && world(id) != Done
  }

  /** The sweep leaves no component of the order as it was: each stays unknown, or ends stopped,
      or ends in `Error` exactly when its own stop went wrong. Only then is there an error to report. */
  lemma {:induction false} SweepEnds(st: States, order: seq<Id>, world: World)
    requires Distinct(order) && forall i :: 0 <= i < |order| ==> order[i] in st
    ensures SweptFrom(st, order, world, Last(st, Sweep(st, order, world).trace))
    ensures Sweep(st, order, world).reply.Ok? <==> forall i :: 0 <= i < |order| ==> !Troubles(st, world, order[i])
    decreases |order|
  {
    if order != [] {
      var one := SweepOne(st, order[0], world);
      var st' := Last(st, one.trace);
      SweepOneState(st, order[0], world);
      SweepEnds(st', order[1..], world);
      TraceConcat(map[], st, one.trace, Sweep(st', order[1..], world).trace);
      RestUntouched(st, order, st', world);
      SweptStep(st, order, st', world, Last(st, Sweep(st, order, world).trace));
    }
  }

  /** Where the sweep leaves a component. */
  function SweptTo(st: States, world: World, id: Id): State
    requires id in st
  {
    if st[id] == Unknown then Unknown else if Troubles(st, world, id) then Error else Stopped
  }

  ghost predicate SweptFrom(st: States, order: seq<Id>, world: World, end: States) {
    && end.Keys == st.Keys
    && (forall n :: n in st && n !in order ==> end[n] == st[n])
    && (forall i :: 0 <= i < |order| && order[i] in end && order[i] in st ==>
          end[order[i]] == SweptTo(st, world, order[i]))
  }

  lemma RestUntouched(st: States, order: seq<Id>, st': States, world: World)
    requires Distinct(order) && order != [] && st'.Keys == st.Keys
    requires forall n :: n in st && n != order[0] ==> st'[n] == st[n]
    ensures forall i :: 1 <= i < |order| ==>
            order[1..][i - 1] == order[i] && (Troubles(st', world, order[i]) <==> Troubles(st, world, order[i]))
  {}

  lemma SweptStep(st: States, order: seq<Id>, st': States, world: World, end: States)
    requires Distinct(order) && order != [] && order[0] in st && st'.Keys == st.Keys
    requires forall n :: n in st && n != order[0] ==> st'[n] == st[n]
    requires st'[order[0]] == SweptTo(st, world, order[0])
    requires SweptFrom(st', order[1..], world, end)
    ensures SweptFrom(st, order, world, end)
  {
    var rest := order[1..];
    HeadTail(order);
    assert order[0] !in rest;
    forall i | 0 <= i < |order| && order[i] in end && order[i] in st
      ensures end[order[i]] == SweptTo(st, world, order[i])
    {
      if i > 0 { assert rest[i - 1] == order[i]; }
    }
  }

  /** `stop_all` does what the sweep does up to the first error, and reports that error too. */
  lemma {:induction false} StopIsSweepCutShort(st: States, order: seq<Id>, world: World)
    ensures StopSeq(st, order, world).reply == Sweep(st, order, world).reply
    ensures StopSeq(st, order, world).trace <= Sweep(st, order, world).trace
    ensures StopSeq(st, order, world).reply.Ok? ==> StopSeq(st, order, world) == Sweep(st, order, world)
    decreases |order|
  {
    if order != [] {
      var one := StopOne(st, order[0], world);
      if one.reply.Ok? { StopIsSweepCutShort(Last(st, one.trace), order[1..], world); }
    }
  }
}
