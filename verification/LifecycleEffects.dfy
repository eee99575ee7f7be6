/** What the operations of the component manager achieve, told from the graph, the states and the components alone. */
module LifecycleEffects {
  import opened Wrappers
  import opened Seqs
  import opened LifecycleGraph
  import opened LifecycleTopo
  import opened LifecycleRun
  import opened LifecycleOps

  // ---- the promises -----------------------------------------------------------------------------------

  /** The error for a component whose own `start` or `stop` did not go well. */
  function Went(world: World, id: Id): LifecycleError {
    if world(id) == Fails then Failed(id) else Timeout(id)
  }

  ghost predicate Untouched(st: States, what: set<Id>, end: States) {
    end.Keys == st.Keys && forall n :: n in st && n !in what ==> end[n] == st[n]
  }

  function StartedTo(s: State): State {
    if s == Starting then Starting else Running
  }

  function StoppedTo(s: State): State {
    if s == Unknown then Unknown else Stopped
  }

  /** A component that is to be started and does not start well. */
  predicate Balks(st: States, world: World, id: Id) {
    id in st && !Started(st, id) && world(id) != Done
  }

  /** The component whose start ended the call: what it needs is started, and nothing that needs it was touched. */
  ghost predicate StartBlamed(g: Graph, st: States, world: World, what: set<Id>, end: States, r: Reply, n: Id) {
    && Balks(st, world, n) && n in end && r == Err(Went(world, n))
    && end[n] == (if world(n) == Fails then Error else Starting)
    && (forall m :: m in what && m in st && m in end && m != n && Reaches(g, n, m) ==> end[m] == StartedTo(st[m]))
    && (forall m :: m in what && m in st && m in end && m != n && Reaches(g, m, n) ==> end[m] == st[m])
  }

  /** Everything in `what` is started, or one component is to blame; nothing else is touched. */
  ghost predicate StartedAll(g: Graph, st: States, world: World, what: set<Id>, end: States, r: Reply) {
    && Untouched(st, what, end)
    && (r.Ok? <==> forall n :: n in what ==> !Balks(st, world, n))
    && (r.Ok? ==> forall n :: n in what && n in st && n in end ==> end[n] == StartedTo(st[n]))
    && (r.Err? ==> exists n :: n in what && StartBlamed(g, st, world, what, end, r, n))
  }

  /** The component whose stop ended the call: what needs it is stopped, and nothing that it needs was touched. */
  ghost predicate StopBlamed(g: Graph, st: States, world: World, what: set<Id>, end: States, r: Reply, n: Id) {
    && Troubles(st, world, n) && n in end && r == Err(Went(world, n))
    && end[n] == (if world(n) == Fails then Error else Stopping)
    && (forall m :: m in what && m in st && m in end && m != n && Reaches(g, m, n) ==> end[m] == StoppedTo(st[m]))
    && (forall m :: m in what && m in st && m in end && m != n && Reaches(g, n, m) ==> end[m] == st[m])
  }

  /** Everything in `what` is stopped, or one component is to blame; nothing else is touched. */
  ghost predicate StoppedAll(g: Graph, st: States, world: World, what: set<Id>, end: States, r: Reply) {
    && Untouched(st, what, end)
    && (r.Ok? <==> forall n :: n in what ==> !Troubles(st, world, n))
    && (r.Ok? ==> forall n :: n in what && n in st && n in end ==> end[n] == StoppedTo(st[n]))
    && (r.Err? ==> exists n :: n in what && StopBlamed(g, st, world, what, end, r, n))
  }

  /** The component that a sweep reports: its stop went wrong, and that of nothing that needs it. */
  ghost predicate SweepBlamed(g: Graph, st: States, world: World, r: Reply, n: Id) {
    Troubles(st, world, n) && r == Err(Went(world, n)) &&
    forall m :: m != n && Reaches(g, m, n) ==> !Troubles(st, world, m)
  }

  /** Every component is stopped, or marked as failed exactly if its stop went wrong. */
  ghost predicate SweptAll(g: Graph, st: States, world: World, end: States, r: Reply) {
    && end.Keys == st.Keys
    && (forall n :: n in st && n in end ==> end[n] == SweptTo(st, world, n))
    && (r.Ok? <==> forall n :: !Troubles(st, world, n))
    && (r.Err? ==> exists n :: SweepBlamed(g, st, world, r, n))
  }

  ghost predicate Refused(st: States, end: States, r: Reply, e: LifecycleError) {
    end == st && r == Err(e)
  }

  /** What each operation leaves behind, and its reply. */
  ghost predicate Achieved(g: Graph, st: States, op: Op, world: World, end: States, r: Reply) {
    match op
    case Start(id) =>
      if id !in st then Refused(st, end, r, ComponentNotFound(id))
      else if st[id] == Running then Refused(st, end, r, ComponentAlreadyStarted(id))
      else StartedAll(g, st, world, Dependencies(g, id), end, r)
    case StartAll => StartedAll(g, st, world, Nodes(g), end, r)
    case Stop(id) =>
      if id !in st then Refused(st, end, r, ComponentNotFound(id))
      else StoppedAll(g, st, world, Dependents(g, id), end, r)
    case StopAll => StoppedAll(g, st, world, Nodes(g), end, r)
    case StopAllWithTimeout => SweptAll(g, st, world, end, r)
  }

  // ---- starting ---------------------------------------------------------------------------------------

  predicate AllIn(order: seq<Id>, st: States) {
    forall i :: 0 <= i < |order| ==> order[i] in st
  }

  /** The states after the starts of `order` up to number `k`, all of them done. */
  function StartedUpTo(st: States, order: seq<Id>, k: nat): States
    requires k <= |order| && AllIn(order, st)
  {
    map n | n in st :: if n in order[..k] then StartedTo(st[n]) else st[n]
  }

  lemma {:induction false} StartSeqGoes(st: States, order: seq<Id>, world: World) returns (k: nat)
    requires Distinct(order) && AllIn(order, st)
    ensures k <= |order| && forall i :: 0 <= i < k ==> !Balks(st, world, order[i])
    ensures var r := StartSeq(st, order, world); var done := StartedUpTo(st, order, k); var end := Last(st, r.trace);
            if k == |order| then r.reply == Ok(()) && end == done
            else Balks(st, world, order[k]) && r.reply == Err(Went(world, order[k])) &&
                 end == done[order[k] := if world(order[k]) == Fails then Error else Starting]
    decreases |order|
  {
    if order == [] {
      k := 0;
      assert StartedUpTo(st, order, 0) == st;
    } else {
      var id, rest := order[0], order[1..];
      var one := StartOne(st, id, world);
      if one.reply.Err? {
        k := 0;
        assert StartedUpTo(st, order, 0) == st;
      } else {
        var next := Last(st, one.trace);
        StartOneState(st, id, world);
        var j := StartSeqGoes(next, rest, world);
        k := j + 1;
        TraceConcat(map[], st, one.trace, StartSeq(next, rest, world).trace);
        StartsShift(st, next, order, world, k);
      }
    }
  }

  lemma StartsShift(st: States, next: States, order: seq<Id>, world: World, k: nat)
    requires Distinct(order) && AllIn(order, st) && 0 < k <= |order|
    requires next == if Started(st, order[0]) then st else st[order[0] := Running]
    requires !Balks(st, world, order[0])
    ensures AllIn(order[1..], next) && StartedUpTo(next, order[1..], k - 1) == StartedUpTo(st, order, k)
    ensures forall i :: 1 <= i < |order| ==>
            order[1..][i - 1] == order[i] && (Balks(next, world, order[i]) <==> Balks(st, world, order[i]))
  {
    var rest := order[1..];
    assert order[..k] == [order[0]] + rest[..k - 1];
    assert order[0] !in rest[..k - 1];
  }

  // ---- stopping ---------------------------------------------------------------------------------------

  function StoppedUpTo(st: States, order: seq<Id>, k: nat): States
    requires k <= |order| && AllIn(order, st)
  {
    map n | n in st :: if n in order[..k] then StoppedTo(st[n]) else st[n]
  }

  lemma {:induction false} StopSeqGoes(st: States, order: seq<Id>, world: World) returns (k: nat)
    requires Distinct(order) && AllIn(order, st)
    ensures k <= |order| && forall i :: 0 <= i < k ==> !Troubles(st, world, order[i])
    ensures var r := StopSeq(st, order, world); var done := StoppedUpTo(st, order, k); var end := Last(st, r.trace);
            if k == |order| then r.reply == Ok(()) && end == done
            else Troubles(st, world, order[k]) && r.reply == Err(Went(world, order[k])) &&
                 end == done[order[k] := if world(order[k]) == Fails then Error else Stopping]
    decreases |order|
  {
    if order == [] {
      k := 0;
      assert StoppedUpTo(st, order, 0) == st;
    } else {
      var id, rest := order[0], order[1..];
      var one := StopOne(st, id, world);
      if one.reply.Err? {
        k := 0;
        assert StoppedUpTo(st, order, 0) == st;
      } else {
        var next := Last(st, one.trace);
        StopOneState(st, id, world);
        var j := StopSeqGoes(next, rest, world);
        k := j + 1;
        TraceConcat(map[], st, one.trace, StopSeq(next, rest, world).trace);
        StopsShift(st, next, order, world, k);
      }
    }
  }

  lemma StopsShift(st: States, next: States, order: seq<Id>, world: World, k: nat)
    requires Distinct(order) && AllIn(order, st) && 0 < k <= |order|
    requires next == if st[order[0]] == Unknown then st else st[order[0] := Stopped]
    requires !Troubles(st, world, order[0])
    ensures AllIn(order[1..], next) && StoppedUpTo(next, order[1..], k - 1) == StoppedUpTo(st, order, k)
    ensures forall i :: 1 <= i < |order| ==>
            order[1..][i - 1] == order[i] && (Troubles(next, world, order[i]) <==> Troubles(st, world, order[i]))
  {
    var rest := order[1..];
    assert order[..k] == [order[0]] + rest[..k - 1];
    assert order[0] !in rest[..k - 1];
  }

  // ---- who comes before whom ---------------------------------------------------------------------------

  /** In a dependency-first order, what is reached comes first. */
  lemma ReachedIsAhead(g: Graph, order: seq<Id>, i: nat, d: Id)
    requires DependenciesFirst(g, order) && i < |order| && Reaches(g, order[i], d) && d != order[i]
    ensures d in order[..i]
  {
    var p :| p != [] && IsWalk(g, p) && p[0] == order[i] && p[|p| - 1] == d;
    var j := WalkGoesBack(g, order, p, i);
    assert order[..i][j] == d;
  }

  lemma {:induction false} WalkComesFrom(g: Graph, order: seq<Id>, p: seq<Id>, i: nat) returns (j: nat)
    requires DependentsFirst(g, order) && IsWalk(g, p) && p != [] && i < |order| && order[i] == p[|p| - 1]
    ensures j <= i && order[j] == p[0] && (|p| > 1 ==> j < i)
    decreases |p|
  {
    if |p| == 1 {
      j := i;
    } else {
      var q := p[..|p| - 1];
      var m := p[|p| - 2];
      assert p[|p| - 1] in DepsOf(g, m);
      assert m in order[..i];
      var k :| 0 <= k < i && order[k] == m;
      assert IsWalk(g, q) && q[|q| - 1] == m;
      j := WalkComesFrom(g, order, q, k);
    }
  }

  /** In a dependents-first order, what reaches comes first. */
  lemma ReachingIsAhead(g: Graph, order: seq<Id>, i: nat, m: Id)
    requires DependentsFirst(g, order) && i < |order| && Reaches(g, m, order[i]) && m != order[i]
    ensures m in order[..i]
  {
    var p :| p != [] && IsWalk(g, p) && p[0] == m && p[|p| - 1] == order[i];
    var j := WalkComesFrom(g, order, p, i);
    assert order[..i][j] == m;
  }

  // ---- what the operations achieve ---------------------------------------------------------------------

  ghost predicate Lists(order: seq<Id>, what: set<Id>) {
    Distinct(order) && forall n :: n in order <==> n in what
  }

  lemma StartSeqAchieves(g: Graph, st: States, order: seq<Id>, world: World, what: set<Id>)
    requires AllIn(order, st) && Lists(order, what) && DependenciesFirst(g, order)
    ensures var r := StartSeq(st, order, world); StartedAll(g, st, world, what, Last(st, r.trace), r.reply)
  {
    var r := StartSeq(st, order, world);
    var end := Last(st, r.trace);
    var k := StartSeqGoes(st, order, world);
    if k == |order| {
      assert order[..k] == order;
      forall n | n in what ensures !Balks(st, world, n) { var i :| 0 <= i < |order| && order[i] == n; }
    } else {
      assert order[k] in order;
      StartIsBlamed(g, st, order, world, what, end, r.reply, k);
    }
  }

  lemma StartIsBlamed(g: Graph, st: States, order: seq<Id>, world: World, what: set<Id>, end: States, r: Reply, k: nat)
    requires AllIn(order, st) && Lists(order, what) && DependenciesFirst(g, order) && k < |order|
    requires Balks(st, world, order[k]) && r == Err(Went(world, order[k]))
    requires end == StartedUpTo(st, order, k)[order[k] := if world(order[k]) == Fails then Error else Starting]
    ensures StartBlamed(g, st, world, what, end, r, order[k])
  {
    var n := order[k];
    forall m | m in what && m in st && m != n && Reaches(g, n, m) ensures end[m] == StartedTo(st[m]) {
      ReachedIsAhead(g, order, k, m);
    }
    forall m | m in what && m in st && m != n && Reaches(g, m, n) ensures end[m] == st[m] {
      var j :| 0 <= j < |order| && order[j] == m;
      ReachedIsAhead(g, order, j, n);
      var i :| 0 <= i < j && order[i] == n;
      assert i == k;
    }
  }

  lemma StopSeqAchieves(g: Graph, st: States, order: seq<Id>, world: World, what: set<Id>)
    requires AllIn(order, st) && Lists(order, what) && DependentsFirst(g, order)
    ensures var r := StopSeq(st, order, world); StoppedAll(g, st, world, what, Last(st, r.trace), r.reply)
  {
    var r := StopSeq(st, order, world);
    var end := Last(st, r.trace);
    var k := StopSeqGoes(st, order, world);
    if k == |order| {
      assert order[..k] == order;
      forall n | n in what ensures !Troubles(st, world, n) { var i :| 0 <= i < |order| && order[i] == n; }
    } else {
      assert order[k] in order;
      StopIsBlamed(g, st, order, world, what, end, r.reply, k);
    }
  }

  lemma StopIsBlamed(g: Graph, st: States, order: seq<Id>, world: World, what: set<Id>, end: States, r: Reply, k: nat)
    requires AllIn(order, st) && Lists(order, what) && DependentsFirst(g, order) && k < |order|
    requires Troubles(st, world, order[k]) && r == Err(Went(world, order[k]))
    requires end == StoppedUpTo(st, order, k)[order[k] := if world(order[k]) == Fails then Error else Stopping]
    ensures StopBlamed(g, st, world, what, end, r, order[k])
  {
    var n := order[k];
    forall m | m in what && m in st && m != n && Reaches(g, m, n) ensures end[m] == StoppedTo(st[m]) {
      ReachingIsAhead(g, order, k, m);
    }
    forall m | m in what && m in st && m != n && Reaches(g, n, m) ensures end[m] == st[m] {
      var j :| 0 <= j < |order| && order[j] == m;
      ReachingIsAhead(g, order, j, n);
      var i :| 0 <= i < j && order[i] == n;
      assert i == k;
    }
  }

  lemma SweepAchieves(g: Graph, st: States, order: seq<Id>, world: World)
    requires AllIn(order, st) && Lists(order, st.Keys) && DependentsFirst(g, order)
    ensures var r := Sweep(st, order, world); SweptAll(g, st, world, Last(st, r.trace), r.reply)
  {
    var r := Sweep(st, order, world);
    var end := Last(st, r.trace);
    SweepEnds(st, order, world);
    StopIsSweepCutShort(st, order, world);
    var k := StopSeqGoes(st, order, world);
    forall n | n in st ensures end[n] == SweptTo(st, world, n) { var i :| 0 <= i < |order| && order[i] == n; }
    if r.reply.Ok? {
      forall n ensures !Troubles(st, world, n) {
        if n in st { var i :| 0 <= i < |order| && order[i] == n; }
      }
    } else {
      FirstIsBlamed(g, st, order, world, r.reply, k);
    }
  }

  lemma FirstIsBlamed(g: Graph, st: States, order: seq<Id>, world: World, r: Reply, k: nat)
    requires DependentsFirst(g, order) && k < |order| && forall i :: 0 <= i < k ==> !Troubles(st, world, order[i])
    requires Troubles(st, world, order[k]) && r == Err(Went(world, order[k]))
    ensures SweepBlamed(g, st, world, r, order[k])
  {
    forall m | m != order[k] && Reaches(g, m, order[k]) ensures !Troubles(st, world, m) {
      ReachingIsAhead(g, order, k, m);
    }
  }

  /** What an operation is about. */
  ghost function Scope(g: Graph, op: Op): set<Id> {
    match op
    case Start(id) => Dependencies(g, id)
    case Stop(id) => Dependents(g, id)
    case _ => Nodes(g)
  }

  lemma ScopeIs(g: Graph, op: Op, n: Id)
    ensures n in Scope(g, op) <==>
            n in Nodes(g) && (op.Start? ==> Reaches(g, op.id, n)) && (op.Stop? ==> Reaches(g, n, op.id))
  {}

  lemma OrderCovers(g: Graph, st: States, topo: seq<Id>, op: Op)
    requires Registered(g, st) && IsTopological(g, topo)
    ensures var order := OrderFor(g, topo, op);
            && AllIn(order, st) && Lists(order, Scope(g, op))
            && (if op.Start? || op.StartAll? then DependenciesFirst(g, order) else DependentsFirst(g, order))
  {
    var order := OrderFor(g, topo, op);
    if op.Start? || op.StartAll? {
      StartOrder(g, topo, op);
    } else {
      StopOrder(g, topo, op);
    }
    forall n ensures n in order <==> n in Scope(g, op) { ScopeIs(g, op, n); }
    forall i | 0 <= i < |order| ensures order[i] in st { assert order[i] in order; }
  }

  /** Every operation, on every registered graph that has an order, whatever the components do, achieves what it
      promises. */
  lemma PerformAchieves(g: Graph, st: States, call: Call)
    requires Registered(g, st) && IsTopological(g, call.topo)
    ensures var run := Perform(g, st, call); Achieved(g, st, call.op, call.world, Last(st, run.trace), run.reply)
  {
    var order := OrderFor(g, call.topo, call.op);
    OrderCovers(g, st, call.topo, call.op);
    if call.op.Start? || call.op.StartAll? {
      StartSeqAchieves(g, st, order, call.world, Scope(g, call.op));
    } else if call.op.StopAllWithTimeout? {
      assert Nodes(g) == st.Keys;
      SweepAchieves(g, st, order, call.world);
    } else {
      StopSeqAchieves(g, st, order, call.world, Scope(g, call.op));
    }
  }
}
