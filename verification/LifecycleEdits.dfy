/** What registering, unregistering and adding a dependency do to the graph and to a safe state. */
module LifecycleEdits {
  import opened LifecycleGraph
  import opened LifecycleRun

  function WithEdge(g: Graph, id: Id, d: Id): Graph {
    g[id := DepsOf(g, id) + {d}]
  }

  function WithNode(g: Graph, id: Id): Graph {
    if id in g then g else g[id := {}]
  }

  function Without(g: Graph, id: Id): Graph {
    map n | n in g && n != id :: g[n] - {id}
  }

  // ---- cycles ------------------------------------------------------------------------------

  lemma MoreEdgesMoreWalks(g: Graph, h: Graph, p: seq<Id>)
    requires IsWalk(g, p) && forall n :: DepsOf(g, n) <= DepsOf(h, n)
    ensures IsWalk(h, p)
  {
    forall i | 0 <= i < |p| - 1
      ensures p[i + 1] in DepsOf(h, p[i])
    {
      assert DepsOf(g, p[i]) <= DepsOf(h, p[i]);
    }
  }

  lemma MoreEdgesMoreCycles(g: Graph, h: Graph)
    requires HasCycle(g) && forall n :: DepsOf(g, n) <= DepsOf(h, n)
    ensures HasCycle(h)
  {
    var p :| |p| >= 2 && IsWalk(g, p) && p[0] == p[|p| - 1];
    MoreEdgesMoreWalks(g, h, p);
  }

  /** A way from `d` to `id` with the new edge `id -> d` in place does not need that edge. */
  lemma EdgeNotNeeded(g: Graph, id: Id, d: Id, p: seq<Id>)
    requires IsWalk(WithEdge(g, id, d), p) && p != [] && p[0] == d && p[|p| - 1] == id
    ensures Reaches(g, d, id)
  {
    if !Reaches(g, d, id) {
      var s := set n | n in Nodes(g) + {d} && Reaches(g, d, n);
      ReachesItself(g, d);
      forall m, e | m in s && e in DepsOf(WithEdge(g, id, d), m)
        ensures e in s
      {
        assert m != id;
        ReachesNext(g, d, m, e);
      }
      ClosedHoldsWalk(WithEdge(g, id, d), s, p);
    }
  }

  lemma JoinWalks(g: Graph, p: seq<Id>, q: seq<Id>)
    requires IsWalk(g, p) && IsWalk(g, q) && p != [] && q != [] && q[0] in DepsOf(g, p[|p| - 1])
    ensures IsWalk(g, p + q)
  {
    var s := p + q;
    forall i | 0 <= i < |s| - 1
      ensures s[i + 1] in DepsOf(g, s[i])
    {
      if i >= |p| { assert s[i] == q[i - |p|] && s[i + 1] == q[i - |p| + 1]; }
    }
  }

  lemma WalkPrefix(g: Graph, p: seq<Id>, i: nat)
    requires IsWalk(g, p) && i <= |p|
    ensures IsWalk(g, p[..i])
  {}

  /** A cycle through the new edge comes back from `d` to `id`. */
  lemma CycleThroughEdge(g: Graph, id: Id, d: Id, p: seq<Id>, i: nat)
    requires IsWalk(WithEdge(g, id, d), p) && |p| >= 2 && p[0] == p[|p| - 1]
    requires i < |p| - 1 && p[i] == id && p[i + 1] == d
    ensures Reaches(g, d, id)
  {
    var h := WithEdge(g, id, d);
    WalkSuffix(h, p, i + 1);
    var back := p[i + 1..];
    if i == 0 {
      EdgeNotNeeded(g, id, d, back);
    } else {
      var front := p[..i + 1][1..];
      WalkPrefix(h, p, i + 1);
      WalkSuffix(h, p[..i + 1], 1);
      assert front[0] == p[1] && front[|front| - 1] == id;
      JoinWalks(h, back, front);
      EdgeNotNeeded(g, id, d, back + front);
    }
  }

  /** Adding `id -> d` to a graph without cycles makes a cycle exactly when `d` already reaches `id`. */
  lemma EdgeMakesCycle(g: Graph, id: Id, d: Id)
    requires !HasCycle(g)
    ensures HasCycle(WithEdge(g, id, d)) <==> Reaches(g, d, id)
  {
    var h := WithEdge(g, id, d);
    if Reaches(g, d, id) {
      var p :| p != [] && IsWalk(g, p) && p[0] == d && p[|p| - 1] == id;
      MoreEdgesMoreWalks(g, h, p);
      JoinWalks(h, p, [d]);
      assert (p + [d])[0] == d && (p + [d])[|p|] == d;
    }
    if HasCycle(h) {
      var p :| |p| >= 2 && IsWalk(h, p) && p[0] == p[|p| - 1];
      var i := CycleUsesEdge(g, id, d, p);
      CycleThroughEdge(g, id, d, p, i);
    }
  }

  ghost predicate Uses(p: seq<Id>, id: Id, d: Id, i: nat) {
    i < |p| - 1 && p[i] == id && p[i + 1] == d
  }

  lemma UnusedEdge(g: Graph, id: Id, d: Id, p: seq<Id>)
    requires IsWalk(WithEdge(g, id, d), p) && |p| >= 2 && p[0] == p[|p| - 1] && forall i :: !Uses(p, id, d, i)
    ensures HasCycle(g)
  {
    forall i | 0 <= i < |p| - 1
      ensures p[i + 1] in DepsOf(g, p[i])
    {
      assert !Uses(p, id, d, i);
    }
    assert IsWalk(g, p);
  }

  lemma CycleUsesEdge(g: Graph, id: Id, d: Id, p: seq<Id>) returns (i: nat)
    requires !HasCycle(g) && IsWalk(WithEdge(g, id, d), p) && |p| >= 2 && p[0] == p[|p| - 1]
    ensures Uses(p, id, d, i)
  {
    if forall k :: !Uses(p, id, d, k) { UnusedEdge(g, id, d, p); }
    i :| Uses(p, id, d, i);
  }

  lemma RegisteringKeepsAcyclic(g: Graph, id: Id)
    requires !HasCycle(g)
    ensures !HasCycle(WithNode(g, id))
  {
    if HasCycle(WithNode(g, id)) { MoreEdgesMoreCycles(WithNode(g, id), g); }
  }

  lemma UnregisteringKeepsAcyclic(g: Graph, id: Id)
    requires !HasCycle(g)
    ensures !HasCycle(Without(g, id)) && Nodes(Without(g, id)) <= Nodes(g) - {id}
  {
    if HasCycle(Without(g, id)) { MoreEdgesMoreCycles(Without(g, id), g); }
  }

  // ---- safety ------------------------------------------------------------------------------

  /** A new dependency keeps a state safe unless the component runs and the dependency does not. */
  lemma EdgeKeepsSafe(g: Graph, st: States, id: Id, d: Id)
    requires Safe(g, st) && id in st && d in st
    ensures Safe(WithEdge(g, id, d), st) <==> (st[id] == Running ==> st[d] == Running)
  {
    assert d in DepsOf(WithEdge(g, id, d), id);
  }

  /** Registering resets the state, which keeps a state safe unless something that runs needs the component. */
  lemma RegisteringKeepsSafe(g: Graph, st: States, id: Id)
    requires Safe(g, st)
    ensures Safe(WithNode(g, id), st[id := Unknown]) <==>
            forall m :: m in st && m != id && st[m] == Running ==> id !in DepsOf(g, m)
  {
    var g', st' := WithNode(g, id), st[id := Unknown];
    assert forall n :: DepsOf(g', n) == DepsOf(g, n);
    if m :| m in st && m != id && st[m] == Running && id in DepsOf(g, m) {
      assert st'[m] == Running && id in DepsOf(g', m) && st'[id] != Running;
    }
  }

  lemma UnregisteringKeepsSafe(g: Graph, st: States, id: Id)
    requires Safe(g, st)
    ensures Safe(Without(g, id), st - {id})
  {
    forall m, d | m in st - {id} && st[m] == Running && d in DepsOf(Without(g, id), m)
      ensures d in st - {id} && st[d] == Running
    {
      assert d in DepsOf(g, m);
    }
  }
}
