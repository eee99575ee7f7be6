/** The component manager: its tables, and the operations that change them. */
module LifecycleManager {
  import opened Wrappers
  import opened Seqs
  import opened LifecycleGraph
  import opened LifecycleTopo
  import opened LifecycleRun
  import opened LifecycleOps
  import opened LifecycleEdits
  import opened LifecycleEffects
  import Steps = LifecycleRun

  const ALL: Id := "<all>"

  class ComponentManager {
    var components: set<Id>
    var deps: Graph
    var states: States
    /** Every state passed through so far. */
    ghost var history: seq<States>

    ghost predicate Valid()
      reads this
    {
      && deps.Keys == components && states.Keys == components
      && Nodes(deps) <= components
      && !HasCycle(deps)
    }

    constructor ()
      ensures Valid() && components == {} && history == []
    {
      components, deps, states, history := {}, map[], map[], [];
      new;
      OrderedIsAcyclic(deps, []);
    }

    method Register(id: Id)
      requires Valid()
      modifies this
      ensures Valid() && components == old(components) + {id} && history == old(history)
      ensures deps == WithNode(old(deps), id) && states == old(states)[id := Unknown]
    {
      RegisteringKeepsAcyclic(deps, id);
      states := states[id := Unknown];
      if id !in deps { deps := deps[id := {}]; }
      components := components + {id};
    }

    method Unregister(id: Id)
      requires Valid()
      modifies this
      ensures Valid() && components == old(components) - {id} && history == old(history)
      ensures deps == Without(old(deps), id) && states == old(states) - {id}
    {
      UnregisteringKeepsAcyclic(deps, id);
      components, states := components - {id}, states - {id};
      deps := deps - {id};
      deps := map n | n in deps :: deps[n] - {id};
    }

    /** An edge that would close a cycle is taken out again. */
    method AddDependency(id: Id, dependsOn: Id) returns (r: Reply)
      requires Valid()
      modifies this`deps
      ensures Valid()
      ensures id !in components ==> r == Err(ComponentNotFound(id))
      ensures id in components && dependsOn !in components ==> r == Err(ComponentNotFound(dependsOn))
      ensures id in components && dependsOn in components ==>
                r == if Reaches(old(deps), dependsOn, id) then Err(CyclicDependency) else Ok(())
      ensures deps == if r.Ok? then WithEdge(old(deps), id, dependsOn) else old(deps)
    {
      if id !in components { return Err(ComponentNotFound(id)); }
      if dependsOn !in components { return Err(ComponentNotFound(dependsOn)); }
      EdgeMakesCycle(deps, id, dependsOn);
      EdgeStaysInside(deps, id, dependsOn);
      ghost var before := deps;
      deps := deps[id := deps[id] + {dependsOn}];
      var order := TopoOrder(deps);
      if order.Err? {
        RollBack(before, id, dependsOn);
        deps := deps[id := deps[id] - {dependsOn}];
        return Err(CyclicDependency);
      }
      return Ok(());
    }

    // ---- one component ---------------------------------------------------------------------

    method Transition(id: Id, s: State)
      requires id in states
      modifies this`states, this`history
      ensures states == old(states)[id := s] && history == old(history) + [states]
    {
      states := states[id := s];
      history := history + [states];
    }

    method StartOne(id: Id, world: World) returns (r: Reply)
      requires Valid()
      modifies this`states, this`history
      ensures Valid()
      ensures Did(old(history), old(states), Steps.StartOne(old(states), id, world), history, states, r)
    {
      if id !in components { return Err(ComponentNotFound(id)); }
      if states[id] == Running || states[id] == Starting { return Ok(()); }
      Transition(id, Starting);
      TwoMoves(old(history), old(states), id, Starting, Running);
      TwoMoves(old(history), old(states), id, Starting, Error);
      match world(id)
      case Done => Transition(id, Running); return Ok(());
      case Fails => Transition(id, Error); return Err(Failed(id));
      case Hangs => return Err(Timeout(id));
    }

    method StopOne(id: Id, world: World) returns (r: Reply)
      requires Valid()
      modifies this`states, this`history
      ensures Valid()
      ensures Did(old(history), old(states), Steps.StopOne(old(states), id, world), history, states, r)
    {
      if id !in components { return Err(ComponentNotFound(id)); }
      if states[id] == Stopped || states[id] == Unknown { return Ok(()); }
      Transition(id, Stopping);
      TwoMoves(old(history), old(states), id, Stopping, Stopped);
      TwoMoves(old(history), old(states), id, Stopping, Error);
      match world(id)
      case Done => Transition(id, Stopped); return Ok(());
      case Fails => Transition(id, Error); return Err(Failed(id));
      case Hangs => return Err(Timeout(id));
    }

    // ---- sequences -------------------------------------------------------------------------

    method StartEach(order: seq<Id>, world: World) returns (r: Reply)
      requires Valid()
      modifies this`states, this`history
      ensures Valid() && Did(old(history), old(states), StartSeq(old(states), order, world), history, states, r)
    {
      ghost var before, all := states, StartSeq(states, order, world);
      for i := 0 to |order|
        invariant Valid()
        invariant Leads(old(history), before, all, history, states, StartSeq(states, order[i..], world))
      {
        ghost var now, was := states, history;
        r := StartOne(order[i], world);
        assert order[i..][1..] == order[i + 1..];
        LeadsOn(old(history), before, all, was, now, Steps.StartOne(now, order[i], world),
                StartSeq(states, order[i + 1..], world));
        if r.Err? { return; }
      }
      r := Ok(());
    }

    method StopEach(order: seq<Id>, world: World) returns (r: Reply)
      requires Valid()
      modifies this`states, this`history
      ensures Valid() && Did(old(history), old(states), StopSeq(old(states), order, world), history, states, r)
    {
      ghost var before, all := states, StopSeq(states, order, world);
      for i := 0 to |order|
        invariant Valid()
        invariant Leads(old(history), before, all, history, states, StopSeq(states, order[i..], world))
      {
        ghost var now, was := states, history;
        r := StopOne(order[i], world);
        assert order[i..][1..] == order[i + 1..];
        LeadsOn(old(history), before, all, was, now, Steps.StopOne(now, order[i], world),
                StopSeq(states, order[i + 1..], world));
        if r.Err? { return; }
      }
      r := Ok(());
    }

    method SweepOne(id: Id, world: World) returns (r: Reply)
      requires Valid() && id in components
      modifies this`states, this`history
      ensures Valid()
      ensures Did(old(history), old(states), Steps.SweepOne(old(states), id, world), history, states, r)
    {
      r := StopOne(id, world);
      if r.Err? {
        ghost var trace := Steps.StopOne(old(states), id, world).trace;
        Transition(id, Error);
        Assoc(old(history), trace, [states]);
      }
    }

    /** Attempts every stop, remembering the first error. */
    method SweepEach(order: seq<Id>, world: World) returns (r: Reply)
      requires Valid() && forall i :: 0 <= i < |order| ==> order[i] in components
      modifies this`states, this`history
      ensures Valid() && Did(old(history), old(states), Sweep(old(states), order, world), history, states, r)
    {
      ghost var before, all := states, Sweep(states, order, world);
      var first: Option<LifecycleError> := None;
      for i := 0 to |order|
        invariant Valid()
        invariant Leads(old(history), before, all, history, states, FirstError(first, Sweep(states, order[i..], world)))
      {
        ghost var now, was := states, history;
        r := SweepOne(order[i], world);
        assert order[i..][1..] == order[i + 1..];
        SweepsOn(old(history), before, all, was, now, first, Steps.SweepOne(now, order[i], world),
                 Sweep(states, order[i + 1..], world));
        if r.Err? && first.None? { first := Some(r.error); }
      }
      assert order[|order|..] == [];
      r := if first.Some? then Err(first.value) else Ok(());
    }

    // ---- the public operations ---------------------------------------------------------------

    method Start(id: Id, world: World) returns (r: Reply, ghost topo: seq<Id>)
      requires Valid()
      modifies this`states, this`history
      ensures Valid() && IsTopological(deps, topo)
      ensures Achieved(deps, old(states), Op.Start(id), world, states, r)
      ensures Did(old(history), old(states), Perform(deps, old(states), Call(Op.Start(id), topo, world)), history,
                  states, r)
    {
      var full := Order();
      topo := full;
      PerformAchieves(deps, states, Call(Op.Start(id), topo, world));
      if id !in states { r := Err(ComponentNotFound(id)); return; }
      if states[id] == Running { r := Err(ComponentAlreadyStarted(id)); return; }
      var closure := DependencyClosure(deps, id);
      ClosureIsDependencies(deps, id, closure);
      r := StartEach(Filter(full, closure), world);
    }

    method StartAll(world: World) returns (r: Reply, ghost topo: seq<Id>)
      requires Valid()
      modifies this`states, this`history
      ensures Valid() && IsTopological(deps, topo)
      ensures Achieved(deps, old(states), Op.StartAll, world, states, r)
      ensures Did(old(history), old(states), Perform(deps, old(states), Call(Op.StartAll, topo, world)), history,
                  states, r)
    {
      var full := Order();
      topo := full;
      PerformAchieves(deps, states, Call(Op.StartAll, topo, world));
      r := StartEach(full, world);
    }

    /** The same, dropped where a component is still starting at the deadline. */
    method StartAllWithTimeout(world: World) returns (r: Reply, ghost topo: seq<Id>)
      requires Valid()
      modifies this`states, this`history
      ensures Valid() && IsTopological(deps, topo)
      ensures exists plain :: r == ForAll(plain) && Achieved(deps, old(states), Op.StartAll, world, states, plain)
      ensures var run := Perform(deps, old(states), Call(Op.StartAll, topo, world));
              Did(old(history), old(states), Run(run.trace, ForAll(run.reply)), history, states, r)
    {
      r, topo := StartAll(world);
      r := ForAll(r);
    }

    method Stop(id: Id, world: World) returns (r: Reply, ghost topo: seq<Id>)
      requires Valid()
      modifies this`states, this`history
      ensures Valid() && IsTopological(deps, topo)
      ensures Achieved(deps, old(states), Op.Stop(id), world, states, r)
      ensures Did(old(history), old(states), Perform(deps, old(states), Call(Op.Stop(id), topo, world)), history,
                  states, r)
    {
      var full := Order();
      topo := full;
      PerformAchieves(deps, states, Call(Op.Stop(id), topo, world));
      if id !in states { r := Err(ComponentNotFound(id)); return; }
      var closure := DependentClosure(deps, id);
      ClosureIsDependents(deps, id, closure);
      r := StopEach(Reverse(Filter(full, closure)), world);
    }

    method StopAll(world: World) returns (r: Reply, ghost topo: seq<Id>)
      requires Valid()
      modifies this`states, this`history
      ensures Valid() && IsTopological(deps, topo)
      ensures Achieved(deps, old(states), Op.StopAll, world, states, r)
      ensures Did(old(history), old(states), Perform(deps, old(states), Call(Op.StopAll, topo, world)), history,
                  states, r)
    {
      var full := Order();
      topo := full;
      PerformAchieves(deps, states, Call(Op.StopAll, topo, world));
      r := StopEach(Reverse(full), world);
    }

    method StopAllWithTimeout(world: World) returns (r: Reply, ghost topo: seq<Id>)
      requires Valid()
      modifies this`states, this`history
      ensures Valid() && IsTopological(deps, topo)
      ensures Achieved(deps, old(states), Op.StopAllWithTimeout, world, states, r)
      ensures Did(old(history), old(states), Perform(deps, old(states), Call(Op.StopAllWithTimeout, topo, world)),
                  history, states, r)
    {
      var full := Order();
      topo := full;
      PerformAchieves(deps, states, Call(Op.StopAllWithTimeout, topo, world));
      StopOrder(deps, full, Op.StopAllWithTimeout);
      var order := Reverse(full);
      assert forall i :: 0 <= i < |order| ==> order[i] in order;
      r := SweepEach(order, world);
    }

    /** The graph never has a cycle, so there always is an order. */
    method Order() returns (full: seq<Id>)
      requires Valid()
      ensures IsTopological(deps, full)
    {
      var order := TopoOrder(deps);
      full := order.value;
    }
  }

  /** Taking the new edge out again gives exactly the graph before. */
  lemma RollBack(g: Graph, id: Id, d: Id)
    requires id in g && !HasCycle(g) && HasCycle(WithEdge(g, id, d))
    ensures var h := WithEdge(g, id, d); h[id := h[id] - {d}] == g
  {
    KnownEdgeIsHarmless(g, id, d);
    assert (g[id] + {d}) - {d} == g[id];
  }

  lemma EdgeStaysInside(g: Graph, id: Id, d: Id)
    requires id in g && d in g && Nodes(g) <= g.Keys
    ensures WithEdge(g, id, d).Keys == g.Keys && Nodes(WithEdge(g, id, d)) <= g.Keys
    ensures WithEdge(g, id, d) == g[id := g[id] + {d}]
  {}

  lemma KnownEdgeIsHarmless(g: Graph, id: Id, d: Id)
    requires !HasCycle(g) && HasCycle(WithEdge(g, id, d))
    ensures d !in DepsOf(g, id)
  {
    if d in DepsOf(g, id) { MoreEdgesMoreCycles(WithEdge(g, id, d), g); }
  }

  /** The states moved as in `run`. */
  ghost predicate Did(history0: seq<States>, before: States, run: Run, history: seq<States>, now: States, r: Reply) {
    && history == history0 + run.trace
    && now == Last(before, run.trace)
    && r == run.reply
  }

  lemma TwoMoves(history: seq<States>, st: States, id: Id, s: State, t: State)
    requires id in st
    ensures st[id := s][id := t] == st[id := t]
    ensures history + [st[id := s]] + [st[id := t]] == history + [st[id := s], st[id := t]]
  {}

  /** What has happened since `before`, continued by `rest`, is all of `all`. */
  ghost predicate Leads(history0: seq<States>, before: States, all: Run, history: seq<States>, now: States, rest: Run) {
    && history + rest.trace == history0 + all.trace
    && Last(now, rest.trace) == Last(before, all.trace)
    && rest.reply == all.reply
  }

  lemma LeadsOn(history0: seq<States>, before: States, all: Run, history: seq<States>, now: States, one: Run, rest: Run)
    requires Leads(history0, before, all, history, now, if one.reply.Err? then one else Then(one, rest))
    ensures one.reply.Ok? ==> Leads(history0, before, all, history + one.trace, Last(now, one.trace), rest)
    ensures one.reply.Err? ==> Did(history0, before, all, history + one.trace, Last(now, one.trace), one.reply)
  {
    if one.reply.Ok? {
      Assoc(history, one.trace, rest.trace);
      TraceConcat(map[], now, one.trace, rest.trace);
    }
  }

  /** A timeout over all components names none of them. */
  function ForAll(r: Reply): Reply {
    if r.Err? && r.error.Timeout? then Err(Timeout(ALL)) else r
  }

  function FirstError(first: Option<LifecycleError>, rest: Run): Run {
    Run(rest.trace, if first.Some? then Err(first.value) else rest.reply)
  }

  lemma SweepsOn(history0: seq<States>, before: States, all: Run, history: seq<States>, now: States,
                 first: Option<LifecycleError>, one: Run, rest: Run)
    requires Leads(history0, before, all, history, now,
                   FirstError(first, Run(one.trace + rest.trace, if one.reply.Err? then one.reply else rest.reply)))
    ensures Leads(history0, before, all, history + one.trace, Last(now, one.trace),
                  FirstError(if one.reply.Err? && first.None? then Some(one.reply.error) else first, rest))
  {
    Assoc(history, one.trace, rest.trace);
    TraceConcat(map[], now, one.trace, rest.trace);
  }

  lemma ClosureIsDependencies(g: Graph, id: Id, closure: set<Id>)
    requires id in g && forall d :: d in closure <==> Reaches(g, id, d)
    ensures closure == Dependencies(g, id)
  {
    forall d | d in closure
      ensures d in Nodes(g)
    {
      ReachedIsNode(g, id, d);
    }
  }

  lemma ClosureIsDependents(g: Graph, id: Id, closure: set<Id>)
    requires id in g && forall d :: d in closure <==> Reaches(g, d, id)
    ensures closure == Dependents(g, id)
  {
    forall d | d in closure
      ensures d in Nodes(g)
    {
      var p :| p != [] && IsWalk(g, p) && p[0] == d && p[|p| - 1] == id;
      if |p| > 1 { assert p[1] in DepsOf(g, p[0]); }
    }
  }
}
