/** Whole runs of the component manager over a fixed dependency graph. */
module LifecycleOps {
  import opened Wrappers
  import opened Seqs
  import opened LifecycleGraph
  import opened LifecycleTopo
  import opened LifecycleRun

  datatype Op = Start(id: Id) | StartAll | Stop(id: Id) | StopAll | StopAllWithTimeout

  /** One call: the operation, the order that `topo_order` gave it, and how the components behave. */
  datatype Call = Call(op: Op, topo: seq<Id>, world: World)

  ghost function Dependencies(g: Graph, id: Id): set<Id> {
    set n | n in Nodes(g) && Reaches(g, id, n)
  }

  ghost function Dependents(g: Graph, id: Id): set<Id> {
    set n | n in Nodes(g) && Reaches(g, n, id)
  }

  ghost function OrderFor(g: Graph, topo: seq<Id>, op: Op): seq<Id> {
    match op
    case Start(id) => Filter(topo, Dependencies(g, id))
    case StartAll => topo
    case Stop(id) => Reverse(Filter(topo, Dependents(g, id)))
    case StopAll => Reverse(topo)
    case StopAllWithTimeout => Reverse(topo)
  }

  ghost function Perform(g: Graph, st: States, call: Call): Run {
    var order := OrderFor(g, call.topo, call.op);
    match call.op
    case Start(id) =>
      if id !in st then Run([], Err(ComponentNotFound(id)))
      else if st[id] == Running then Run([], Err(ComponentAlreadyStarted(id)))
      else StartSeq(st, order, call.world)
    case StartAll => StartSeq(st, order, call.world)
    case Stop(id) =>
      if id !in st then Run([], Err(ComponentNotFound(id))) else StopSeq(st, order, call.world)
    case StopAll => StopSeq(st, order, call.world)
    case StopAllWithTimeout => Sweep(st, order, call.world)
  }

  ghost function PerformAll(g: Graph, st: States, calls: seq<Call>): seq<States>
    decreases |calls|
  {
    if calls == [] then [] else
      var trace := Perform(g, st, calls[0]).trace;
      trace + PerformAll(g, Last(st, trace), calls[1..])
  }

  /** Every component has a state and only registered components are depended on. */
  predicate Registered(g: Graph, st: States) {
    g.Keys == st.Keys && Nodes(g) <= st.Keys
  }

  // ---- orders ------------------------------------------------------------------------------

  lemma {:induction false} FilterAll(order: seq<Id>, keep: set<Id>)
    requires forall i :: 0 <= i < |order| ==> order[i] in keep
    ensures Filter(order, keep) == order
  {
    if order != [] {
      var rest := order[1..];
      assert forall i :: 0 <= i < |rest| ==> rest[i] == order[i + 1];
      FilterAll(rest, keep);
      HeadTail(order);
    }
  }

  lemma DependenciesClosed(g: Graph, id: Id)
    ensures forall m, d :: m in Dependencies(g, id) && d in DepsOf(g, m) ==> d in Dependencies(g, id)
  {
    forall m, d | m in Dependencies(g, id) && d in DepsOf(g, m)
      ensures d in Dependencies(g, id)
    {
      ReachesNext(g, id, m, d);
    }
  }

  lemma DependentsClosed(g: Graph, id: Id)
    ensures forall m, d :: m in g && d in Dependents(g, id) && d in g[m] ==> m in Dependents(g, id)
  {
    forall m, d | m in g && d in Dependents(g, id) && d in g[m]
      ensures m in Dependents(g, id)
    {
      ReachesBefore(g, m, d, id);
    }
  }

  /** `start` and `start_all` list dependencies first, `start` only what it needs. */
  lemma StartOrder(g: Graph, topo: seq<Id>, op: Op)
    requires IsTopological(g, topo) && (op.Start? || op.StartAll?)
    ensures var order := OrderFor(g, topo, op);
            && Distinct(order) && DependenciesFirst(g, order)
            && forall n :: n in order <==> n in Nodes(g) && (op.Start? ==> Reaches(g, op.id, n))
  {
    if op.Start? {
      DependenciesClosed(g, op.id);
      FilterKeepsOrder(g, topo, Dependencies(g, op.id));
      forall n
        ensures n in OrderFor(g, topo, op) <==> n in Nodes(g) && Reaches(g, op.id, n)
      {
        FilterElements(topo, Dependencies(g, op.id), n);
      }
    }
  }

  lemma {:induction false} ReverseElements<T>(s: seq<T>, x: T)
    ensures x in Reverse(s) <==> x in s
  {
    if s != [] {
      ReverseElements(s[1..], x);
      HeadTail(s);
    }
  }

  /** `stop`, `stop_all` and the sweep list dependents first, `stop` only those it must. */
  lemma StopOrder(g: Graph, topo: seq<Id>, op: Op)
    requires IsTopological(g, topo) && (op.Stop? || op.StopAll? || op.StopAllWithTimeout?)
    ensures var order := OrderFor(g, topo, op);
            && Distinct(order) && DependentsFirst(g, order)
            && forall n :: n in order <==> n in Nodes(g) && (op.Stop? ==> Reaches(g, n, op.id))
  {
    var keep := if op.Stop? then Dependents(g, op.id) else Nodes(g);
    if op.Stop? { DependentsClosed(g, op.id); } else { FilterAll(topo, keep); }
    ReverseFilter(g, topo, keep);
    forall n
      ensures n in OrderFor(g, topo, op) <==> n in keep
    {
      ReverseElements(Filter(topo, keep), n);
      FilterElements(topo, keep, n);
    }
  }

  lemma ReadyToStart(g: Graph, st: States, topo: seq<Id>, op: Op)
    requires Registered(g, st) && IsTopological(g, topo) && (op.Start? || op.StartAll?)
    ensures Ready(g, st, OrderFor(g, topo, op))
  {
    StartOrder(g, topo, op);
    var order := OrderFor(g, topo, op);
    forall i | 0 <= i < |order|
      ensures order[i] in st && DepsAhead(g, st, order[..i], order[i])
    {
      assert order[i] in order;
    }
  }

  lemma ClearToStop(g: Graph, st: States, topo: seq<Id>, op: Op)
    requires Registered(g, st) && IsTopological(g, topo) && (op.Stop? || op.StopAll? || op.StopAllWithTimeout?)
    ensures Clear(g, st, OrderFor(g, topo, op))
  {
    StopOrder(g, topo, op);
    var order := OrderFor(g, topo, op);
    forall i | 0 <= i < |order|
      ensures order[i] in st && DependentsAhead(g, st, order[..i], order[i])
    {
      assert order[i] in order;
    }
  }

  // ---- runs --------------------------------------------------------------------------------

  predicate NoneLeftStarting(st: States) {
    forall n :: n in st ==> st[n] != Starting
  }

  /** A start that nobody drops half-way. */
  ghost predicate Undropped(call: Call) {
    call.op.Start? || call.op.StartAll? ==> forall id :: call.world(id) != Hangs
  }

  lemma {:induction false} StartLeavesNone(st: States, order: seq<Id>, world: World)
    requires NoneLeftStarting(st) && forall id :: world(id) != Hangs
    ensures NoneLeftStarting(Last(st, StartSeq(st, order, world).trace))
    ensures Last(st, StartSeq(st, order, world).trace).Keys == st.Keys
    decreases |order|
  {
    if order != [] {
      var one := StartOne(st, order[0], world);
      if one.reply.Ok? {
        var st' := Last(st, one.trace);
        StartLeavesNone(st', order[1..], world);
        TraceConcat(map[], st, one.trace, StartSeq(st', order[1..], world).trace);
      }
    }
  }

  lemma {:induction false} SweepLeavesNone(st: States, order: seq<Id>, world: World)
    requires NoneLeftStarting(st)
    ensures NoneLeftStarting(Last(st, Sweep(st, order, world).trace))
    ensures Last(st, Sweep(st, order, world).trace).Keys == st.Keys
    decreases |order|
  {
    if order != [] {
      var one := SweepOne(st, order[0], world);
      var st' := Last(st, one.trace);
      SweepLeavesNone(st', order[1..], world);
      TraceConcat(map[], st, one.trace, Sweep(st', order[1..], world).trace);
    }
  }

  lemma {:induction false} StopLeavesNone(st: States, order: seq<Id>, world: World)
    requires NoneLeftStarting(st)
    ensures NoneLeftStarting(Last(st, StopSeq(st, order, world).trace))
    ensures Last(st, StopSeq(st, order, world).trace).Keys == st.Keys
    decreases |order|
  {
    if order != [] {
      var one := StopOne(st, order[0], world);
      if one.reply.Ok? {
        var st' := Last(st, one.trace);
        StopLeavesNone(st', order[1..], world);
        TraceConcat(map[], st, one.trace, StopSeq(st', order[1..], world).trace);
      }
    }
  }

  lemma NothingBlocked(g: Graph, st: States, order: seq<Id>)
    requires Registered(g, st) && NoneLeftStarting(st)
    ensures Unblocked(g, st, order)
  {}

  lemma PerformSafe(g: Graph, st: States, call: Call)
    requires Registered(g, st) && IsTopological(g, call.topo) && NoneLeftStarting(st) && Undropped(call)
    ensures TraceOk(g, st, Perform(g, st, call).trace)
    ensures NoneLeftStarting(Last(st, Perform(g, st, call).trace))
    ensures Last(st, Perform(g, st, call).trace).Keys == st.Keys
  {
    var order := OrderFor(g, call.topo, call.op);
    if call.op.Start? || call.op.StartAll? {
      ReadyToStart(g, st, call.topo, call.op);
      NothingBlocked(g, st, order);
      StartSafe(g, st, order, call.world);
      StartLeavesNone(st, order, call.world);
    } else {
      ClearToStop(g, st, call.topo, call.op);
      StopSafe(g, st, order, call.world);
      SweepSafe(g, st, order, call.world);
      StopLeavesNone(st, order, call.world);
      SweepLeavesNone(st, order, call.world);
    }
  }

  lemma {:induction false} RunIsOk(g: Graph, st: States, calls: seq<Call>)
    requires Registered(g, st) && NoneLeftStarting(st)
    requires forall i :: 0 <= i < |calls| ==> IsTopological(g, calls[i].topo) && Undropped(calls[i])
    ensures TraceOk(g, st, PerformAll(g, st, calls))
    decreases |calls|
  {
    if calls != [] {
      var trace := Perform(g, st, calls[0]).trace;
      PerformSafe(g, st, calls[0]);
      RunIsOk(g, Last(st, trace), calls[1..]);
      TraceConcat(g, st, trace, PerformAll(g, Last(st, trace), calls[1..]));
    }
  }

  /** In any sequence of starts and stops, with any failures and any timed-out stops, every state passed
      through has only running dependencies under running components, and every move is in order. */
  lemma RunIsSafe(g: Graph, st: States, calls: seq<Call>)
    requires Registered(g, st) && NoneLeftStarting(st) && Safe(g, st)
    requires forall i :: 0 <= i < |calls| ==> IsTopological(g, calls[i].topo) && Undropped(calls[i])
    ensures TraceOk(g, st, PerformAll(g, st, calls))
    ensures forall i :: 0 <= i < |PerformAll(g, st, calls)| ==> Safe(g, PerformAll(g, st, calls)[i])
  {
    RunIsOk(g, st, calls);
    TraceKeepsSafe(g, st, PerformAll(g, st, calls));
  }

  // ---- a start that is dropped half-way ----------------------------------------------------

  const DB := "a"
  const APP := "b"
  const APP_NEEDS_DB: Graph := map[DB := {}, APP := {DB}]

  function AllHang(): World {
    (_: Id) => Hangs
  }

  /** `start_all_with_timeout` can leave a dependency in `Starting`; a later `start` then runs the
      dependent without it. */
  lemma DroppedStartIsUnsafe()
    ensures IsTopological(APP_NEEDS_DB, [DB, APP])
    ensures var st := map[DB := Unknown, APP := Unknown];
            var dropped := Last(st, StartSeq(st, [DB, APP], AllHang()).trace);
            var later := StartSeq(dropped, [DB, APP], AllDone());
            && Registered(APP_NEEDS_DB, st) && Safe(APP_NEEDS_DB, st)
            && later.reply.Ok? && !Safe(APP_NEEDS_DB, Last(dropped, later.trace))
  {
    assert DB != APP;
    var st := map[DB := Unknown, APP := Unknown];
    var dropped := st[DB := Starting];
    assert StartSeq(st, [DB, APP], AllHang()) == Run([dropped], Err(Timeout(DB)));
    assert [DB, APP][1..] == [APP];
    assert StartOne(dropped, DB, AllDone()) == Run([], Ok(()));
    var later := [dropped[APP := Starting], dropped[APP := Running]];
    assert StartSeq(dropped, [APP], AllDone()).trace == later;
    assert StartSeq(dropped, [DB, APP], AllDone()).trace == later;
    assert later[1][APP] == Running && later[1][DB] == Starting;
    assert DB in DepsOf(APP_NEEDS_DB, APP);
  }
}
