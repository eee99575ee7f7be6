/** The graph algorithms of `lifecycle/manager.rs`: Kahn's algorithm and the two closures. */
module LifecycleTopo {
  import opened Wrappers
  import opened Seqs
  import opened LifecycleGraph

  datatype LifecycleError =
    | ComponentNotFound(id: Id)
    | ComponentAlreadyStarted(id: Id)
    | CyclicDependency
    | Failed(id: Id)
    | Timeout(id: Id)

  // ---- sorting by name -----------------------------------------------------------

  predicate LessEq(a: string, b: string) {
    a == [] || (b != [] && (a[0] < b[0] || (a[0] == b[0] && LessEq(a[1..], b[1..]))))
  }

  function Insert(x: Id, s: seq<Id>): seq<Id> {
    if s == [] || LessEq(x, s[0]) then [x] + s else [s[0]] + Insert(x, s[1..])
  }

  /** `sort_unstable` on names. */
  function Sort(s: seq<Id>): seq<Id> {
    if s == [] then [] else Insert(s[0], Sort(s[1..]))
  }

  lemma {:induction false} InsertIsPermutation(x: Id, s: seq<Id>)
    ensures forall n :: n in Insert(x, s) <==> n == x || n in s
    ensures Distinct(s) && x !in s ==> Distinct(Insert(x, s))
  {
    if s != [] && !LessEq(x, s[0]) {
      HeadTail(s);
      InsertIsPermutation(x, s[1..]);
      if Distinct(s) && x !in s {
        assert s[0] !in s[1..];
        var more := Insert(x, s[1..]);
        assert forall j :: 0 <= j < |more| ==> more[j] in more;
        DistinctConcat([s[0]], more);
      }
    }
  }

  lemma {:induction false} SortIsPermutation(s: seq<Id>)
    ensures forall n :: n in Sort(s) <==> n in s
    ensures Distinct(s) ==> Distinct(Sort(s))
  {
    if s != [] {
      HeadTail(s);
      SortIsPermutation(s[1..]);
      InsertIsPermutation(s[0], Sort(s[1..]));
    }
  }

  predicate InNameOrder(s: seq<Id>) {
    forall i, j :: 0 <= i < j < |s| ==> LessEq(s[i], s[j])
  }

  lemma {:induction false} LessEqTotal(a: string, b: string)
    ensures LessEq(a, b) || LessEq(b, a)
  {
    if a != [] && b != [] && a[0] == b[0] { LessEqTotal(a[1..], b[1..]); }
  }

  lemma {:induction false} LessEqTransitive(a: string, b: string, c: string)
    requires LessEq(a, b) && LessEq(b, c)
    ensures LessEq(a, c)
  {
    if a != [] && a[0] == b[0] == c[0] { LessEqTransitive(a[1..], b[1..], c[1..]); }
  }

  lemma {:induction false} LessEqBoth(a: string, b: string)
    requires LessEq(a, b) && LessEq(b, a)
    ensures a == b
  {
    if a != [] {
      LessEqBoth(a[1..], b[1..]);
      HeadTail(a);
      HeadTail(b);
    }
  }

  lemma PrependKeepsOrder(x: Id, s: seq<Id>)
    requires InNameOrder(s) && (s != [] ==> LessEq(x, s[0]))
    ensures InNameOrder([x] + s)
  {
    forall j | 0 <= j < |s|
      ensures LessEq(x, s[j])
    {
      if j > 0 { LessEqTransitive(x, s[0], s[j]); }
    }
  }

  lemma {:induction false} InsertKeepsOrder(x: Id, s: seq<Id>)
    requires InNameOrder(s)
    ensures InNameOrder(Insert(x, s))
  {
    if s == [] || LessEq(x, s[0]) {
      PrependKeepsOrder(x, s);
    } else {
      var rest := Insert(x, s[1..]);
      InsertKeepsOrder(x, s[1..]);
      LessEqTotal(x, s[0]);
      InsertIsPermutation(x, s[1..]);
      assert rest != [] ==> rest[0] in rest;
      AllAbove(s);
      PrependKeepsOrder(s[0], rest);
    }
  }

  lemma AllAbove(s: seq<Id>)
    requires InNameOrder(s) && s != []
    ensures forall n :: n in s[1..] ==> LessEq(s[0], n)
  {}

  lemma {:induction false} SortOrders(s: seq<Id>)
    ensures InNameOrder(Sort(s))
  {
    if s != [] {
      SortOrders(s[1..]);
      InsertKeepsOrder(s[0], Sort(s[1..]));
    }
  }

  /** The ids of a set, each once, in name order. */
  ghost predicate NamesInOrder(q: seq<Id>, s: set<Id>) {
    InNameOrder(q) && Distinct(q) && forall n :: n in q <==> n in s
  }

  /** There is only one such list. */
  lemma {:induction false} OneNameOrder(a: seq<Id>, b: seq<Id>, s: set<Id>)
    requires NamesInOrder(a, s) && NamesInOrder(b, s)
    ensures a == b
    decreases |a|
  {
    DistinctSize(a, s);
    DistinctSize(b, s);
    if a != [] {
      assert a[0] in a && b[0] in b;
      SameHead(a, b);
      HeadTail(a);
      HeadTail(b);
      TailLists(a, s);
      TailLists(b, s);
      OneNameOrder(a[1..], b[1..], s - {a[0]});
    }
  }

  lemma SameHead(a: seq<Id>, b: seq<Id>)
    requires InNameOrder(a) && InNameOrder(b) && a != [] && b != [] && a[0] in b && b[0] in a
    ensures a[0] == b[0]
  {
    var i :| 0 <= i < |b| && b[i] == a[0];
    var j :| 0 <= j < |a| && a[j] == b[0];
    if i > 0 && j > 0 { LessEqBoth(a[0], b[0]); }
  }

  lemma TailLists(a: seq<Id>, s: set<Id>)
    requires NamesInOrder(a, s) && a != []
    ensures NamesInOrder(a[1..], s - {a[0]})
  {
    HeadTail(a);
    var t := a[1..];
    assert forall i :: 0 <= i < |t| ==> t[i] == a[i + 1];
  }

  /** That list. */
  ghost function NameOrder(s: set<Id>): seq<Id> {
    if s == {} then [] else
      var n :| n in s;
      Insert(n, NameOrder(s - {n}))
  }

  lemma {:induction false} NameOrderLists(s: set<Id>)
    ensures NamesInOrder(NameOrder(s), s)
  {
    if s != {} {
      var n :| n in s && NameOrder(s) == Insert(n, NameOrder(s - {n}));
      NameOrderLists(s - {n});
      InsertIsPermutation(n, NameOrder(s - {n}));
      InsertKeepsOrder(n, NameOrder(s - {n}));
    }
  }

  lemma SortGivesNameOrder(q: seq<Id>, s: set<Id>)
    requires Distinct(q) && forall n :: n in q <==> n in s
    ensures Sort(q) == NameOrder(s)
  {
    SortIsPermutation(q);
    SortOrders(q);
    NameOrderLists(s);
    OneNameOrder(Sort(q), NameOrder(s), s);
  }

  // ---- the order that Kahn's algorithm gives ---------------------------------------------------------

  ghost function Roots(g: Graph): set<Id> {
    set m | m in Nodes(g) && DepsOf(g, m) == {}
  }

  /** What has nothing left to wait for once `n` is done. */
  ghost function Freed(g: Graph, n: Id, done: set<Id>): set<Id> {
    set m | m in Nodes(g) && n in DepsOf(g, m) && DepsOf(g, m) <= done + {n}
  }

  ghost function KahnFrom(g: Graph, queue: seq<Id>, done: set<Id>): seq<Id>
    decreases |Nodes(g) - done|
  {
    if queue == [] || queue[0] !in Nodes(g) - done then [] else
      assert Nodes(g) - (done + {queue[0]}) < Nodes(g) - done;
      SmallerSet(Nodes(g) - (done + {queue[0]}), Nodes(g) - done);
      [queue[0]] + KahnFrom(g, queue[1..] + NameOrder(Freed(g, queue[0], done)), done + {queue[0]})
  }

  lemma SmallerSet(a: set<Id>, b: set<Id>)
    requires a < b
    ensures |a| < |b|
  {
    assert b == a + (b - a);
  }

  /** Breadth first, with names breaking every tie. */
  ghost function KahnOrder(g: Graph): seq<Id> {
    KahnFrom(g, NameOrder(Roots(g)), {})
  }

  // ---- Kahn's algorithm ------------------------------------------------------------

  function ListAt(m: map<Id, seq<Id>>, k: Id): seq<Id> {
    if k in m then m[k] else []
  }

  ghost function DepsOfAll(g: Graph, from: set<Id>): set<Id> {
    set n, d | n in from && d in DepsOf(g, n) :: d
  }

  /** The ids in `from` and what they depend on have a count, `id` and the ids in `seen` too. */
  ghost predicate CountsNodes(g: Graph, from: set<Id>, id: Id, seen: set<Id>, degree: map<Id, nat>) {
    degree.Keys == from + {id} + seen + DepsOfAll(g, from)
  }

  /** `id` is counted by the dependencies in `seen`, the ids of `from` by all of theirs. */
  ghost predicate Counts(g: Graph, from: set<Id>, id: Id, seen: set<Id>, degree: map<Id, nat>) {
    forall m :: m in degree ==> degree[m] == if m == id then |seen| else if m in from then |DepsOf(g, m)| else 0
  }

  ghost predicate ListsDistinct(dependents: map<Id, seq<Id>>) {
    forall d :: Distinct(ListAt(dependents, d))
  }

  /** Each id lists its dependents: those in `from`, and `id` under the ids in `seen`. */
  ghost predicate Lists(g: Graph, from: set<Id>, id: Id, seen: set<Id>, dependents: map<Id, seq<Id>>) {
    forall d, m {:trigger m in ListAt(dependents, d)} :: m in ListAt(dependents, d) <==>
        (m in from && d in DepsOf(g, m)) || (m == id && d in seen)
  }

  ghost predicate CountsAllNodes(g: Graph, from: set<Id>, degree: map<Id, nat>) {
    degree.Keys == from + DepsOfAll(g, from)
  }

  ghost predicate CountsAll(g: Graph, from: set<Id>, degree: map<Id, nat>) {
    forall m :: m in degree ==> degree[m] == if m in from then |DepsOf(g, m)| else 0
  }

  ghost predicate ListsAll(g: Graph, from: set<Id>, dependents: map<Id, seq<Id>>) {
    forall d, m {:trigger m in ListAt(dependents, d)} :: m in ListAt(dependents, d) <==> m in from && d in DepsOf(g, m)
  }

  function CountedOff(degree: map<Id, nat>, id: Id, d: Id): map<Id, nat>
    requires id in degree
  {
    var counted := degree[id := degree[id] + 1];
    if d in counted then counted else counted[d := 0]
  }

  function WithDependent(dependents: map<Id, seq<Id>>, d: Id, id: Id): map<Id, seq<Id>> {
    dependents[d := ListAt(dependents, d) + [id]]
  }

  lemma NodesOne(g: Graph, from: set<Id>, id: Id, seen: set<Id>, degree: map<Id, nat>, d: Id)
    requires CountsNodes(g, from, id, seen, degree)
    ensures CountsNodes(g, from, id, seen + {d}, CountedOff(degree, id, d))
  {}

  lemma CountsOne(g: Graph, from: set<Id>, id: Id, seen: set<Id>, degree: map<Id, nat>, d: Id)
    requires CountsNodes(g, from, id, seen, degree) && Counts(g, from, id, seen, degree) && d !in seen
    ensures Counts(g, from, id, seen + {d}, CountedOff(degree, id, d))
  {}

  lemma DistinctOne(g: Graph, from: set<Id>, id: Id, seen: set<Id>, dependents: map<Id, seq<Id>>, d: Id)
    requires ListsDistinct(dependents) && Lists(g, from, id, seen, dependents) && d !in seen && id !in from
    ensures ListsDistinct(WithDependent(dependents, d, id))
  {
    assert id !in ListAt(dependents, d);
    DistinctAppend(ListAt(dependents, d), id);
    var dependents' := WithDependent(dependents, d, id);
    forall e
      ensures Distinct(ListAt(dependents', e))
    {
      assert Distinct(ListAt(dependents, e));
    }
  }

  lemma ListsOne(g: Graph, from: set<Id>, id: Id, seen: set<Id>, dependents: map<Id, seq<Id>>, d: Id)
    requires Lists(g, from, id, seen, dependents)
    ensures Lists(g, from, id, seen + {d}, WithDependent(dependents, d, id))
  {
    var seen', dependents' := seen + {d}, WithDependent(dependents, d, id);
    forall e, m {:trigger m in ListAt(dependents', e)}
      ensures m in ListAt(dependents', e) <==> (m in from && e in DepsOf(g, m)) || (m == id && e in seen')
    {
      assert m in ListAt(dependents, e) <==> (m in from && e in DepsOf(g, m)) || (m == id && e in seen);
    }
  }

  lemma CountsStart(g: Graph, from: set<Id>, id: Id, degree: map<Id, nat>)
    requires CountsAllNodes(g, from, degree) && CountsAll(g, from, degree) && id !in from
    ensures CountsNodes(g, from, id, {}, if id in degree then degree else degree[id := 0])
    ensures Counts(g, from, id, {}, if id in degree then degree else degree[id := 0])
  {}

  lemma ListsStart(g: Graph, from: set<Id>, id: Id, dependents: map<Id, seq<Id>>)
    requires ListsAll(g, from, dependents)
    ensures Lists(g, from, id, {}, dependents)
  {}

  lemma NodesEnd(g: Graph, from: set<Id>, id: Id, degree: map<Id, nat>)
    requires CountsNodes(g, from, id, DepsOf(g, id), degree)
    ensures CountsAllNodes(g, from + {id}, degree)
  {
    assert DepsOfAll(g, from + {id}) == DepsOfAll(g, from) + DepsOf(g, id);
  }

  lemma CountsEnd(g: Graph, from: set<Id>, id: Id, degree: map<Id, nat>)
    requires Counts(g, from, id, DepsOf(g, id), degree)
    ensures CountsAll(g, from + {id}, degree)
  {}

  lemma ListsEnd(g: Graph, from: set<Id>, id: Id, dependents: map<Id, seq<Id>>)
    requires Lists(g, from, id, DepsOf(g, id), dependents)
    ensures ListsAll(g, from + {id}, dependents)
  {
    forall d, m
      ensures m in ListAt(dependents, d) <==> m in from + {id} && d in DepsOf(g, m)
    {}
  }

  ghost predicate Split(all: set<Id>, left: set<Id>, seen: set<Id>) {
    left !! seen && left + seen == all
  }

  lemma MoveOver(all: set<Id>, left: set<Id>, seen: set<Id>, d: Id)
    requires Split(all, left, seen) && d in left
    ensures Split(all, left - {d}, seen + {d}) && d !in seen
  {}

  method IndexOne(g: Graph, ghost from: set<Id>, id: Id, ghost seen: set<Id>, degree0: map<Id, nat>,
                  dependents0: map<Id, seq<Id>>, d: Id)
    returns (degree: map<Id, nat>, dependents: map<Id, seq<Id>>)
    requires id !in from && d !in seen
    requires CountsNodes(g, from, id, seen, degree0) && Counts(g, from, id, seen, degree0)
    requires ListsDistinct(dependents0) && Lists(g, from, id, seen, dependents0)
    ensures CountsNodes(g, from, id, seen + {d}, degree) && Counts(g, from, id, seen + {d}, degree)
    ensures ListsDistinct(dependents) && Lists(g, from, id, seen + {d}, dependents)
  {
    NodesOne(g, from, id, seen, degree0, d);
    CountsOne(g, from, id, seen, degree0, d);
    DistinctOne(g, from, id, seen, dependents0, d);
    ListsOne(g, from, id, seen, dependents0, d);
    degree, dependents := CountedOff(degree0, id, d), WithDependent(dependents0, d, id);
  }

  method IndexDependencies(g: Graph, ghost from: set<Id>, id: Id, degree0: map<Id, nat>, dependents0: map<Id, seq<Id>>)
    returns (degree: map<Id, nat>, dependents: map<Id, seq<Id>>)
    requires id in g && id !in from
    requires CountsAllNodes(g, from, degree0) && CountsAll(g, from, degree0)
    requires ListsDistinct(dependents0) && ListsAll(g, from, dependents0)
    ensures CountsAllNodes(g, from + {id}, degree) && CountsAll(g, from + {id}, degree)
    ensures ListsDistinct(dependents) && ListsAll(g, from + {id}, dependents)
  {
    CountsStart(g, from, id, degree0);
    ListsStart(g, from, id, dependents0);
    degree, dependents := if id in degree0 then degree0 else degree0[id := 0], dependents0;
    var left := g[id];
    ghost var seen: set<Id> := {};
    while left != {}
      invariant Split(g[id], left, seen)
      invariant CountsNodes(g, from, id, seen, degree) && Counts(g, from, id, seen, degree)
      invariant ListsDistinct(dependents) && Lists(g, from, id, seen, dependents)
      decreases left
    {
      var d :| d in left;
      MoveOver(g[id], left, seen, d);
      degree, dependents := IndexOne(g, from, id, seen, degree, dependents, d);
      left, seen := left - {d}, seen + {d};
    }
    assert seen == DepsOf(g, id);
    NodesEnd(g, from, id, degree);
    CountsEnd(g, from, id, degree);
    ListsEnd(g, from, id, dependents);
  }

  method BuildIndex(g: Graph) returns (degree: map<Id, nat>, dependents: map<Id, seq<Id>>)
    ensures CountsPending(g, degree, {})
    ensures ListsDistinct(dependents) && ListsAll(g, g.Keys, dependents)
  {
    degree, dependents := map[], map[];
    var left := g.Keys;
    ghost var from: set<Id> := {};
    while left != {}
      invariant Split(g.Keys, left, from)
      invariant CountsAllNodes(g, from, degree) && CountsAll(g, from, degree)
      invariant ListsDistinct(dependents) && ListsAll(g, from, dependents)
      decreases left
    {
      var id :| id in left;
      MoveOver(g.Keys, left, from, id);
      degree, dependents := IndexDependencies(g, from, id, degree, dependents);
      left, from := left - {id}, from + {id};
    }
    assert from == g.Keys;
    AllCounted(g, degree);
  }

  lemma AllCounted(g: Graph, degree: map<Id, nat>)
    requires CountsAllNodes(g, g.Keys, degree) && CountsAll(g, g.Keys, degree)
    ensures CountsPending(g, degree, {})
  {
    assert g.Keys + DepsOfAll(g, g.Keys) == Nodes(g);
    forall m | m in degree
      ensures degree[m] == |DepsOf(g, m) - {}|
    {
      assert DepsOf(g, m) - {} == DepsOf(g, m);
    }
  }

  /** How many dependencies of each node are not done yet. */
  ghost predicate CountsPending(g: Graph, degree: map<Id, nat>, done: set<Id>) {
    && degree.Keys == Nodes(g)
    && forall m :: m in degree ==> degree[m] == |DepsOf(g, m) - done|
  }

  /** Counts `n` off for each of its dependents and collects those with nothing left to wait for. */
  method Release(g: Graph, n: Id, list: seq<Id>, degree0: map<Id, nat>, ghost done: set<Id>)
    returns (degree: map<Id, nat>, ready: seq<Id>)
    requires CountsPending(g, degree0, done) && n !in done
    requires Distinct(list) && ListsDependentsOf(g, n, list)
    ensures CountsPending(g, degree, done + {n})
    ensures Distinct(ready)
    ensures forall m :: m in ready <==> m in degree0 && degree0[m] > 0 && degree[m] == 0
  {
    degree, ready := degree0, [];
    ghost var off: set<Id> := {};
    for i := 0 to |list|
      invariant ReleaseInvariant(degree0, degree, ready, off)
      invariant Taken(list, i, off)
    {
      TakenStep(list, i, off);
      HasPending(g, n, list[i], list, degree0, done);
      degree, ready := CountDown(degree0, degree, ready, off, list[i]);
      off := off + {list[i]};
    }
    ReleaseEnd(g, n, list, degree0, degree, ready, off, done);
  }

  ghost predicate ListsDependentsOf(g: Graph, n: Id, list: seq<Id>) {
    forall m :: m in list <==> n in DepsOf(g, m)
  }

  /** `off` holds the first `i` ids of the list. */
  ghost predicate Taken(list: seq<Id>, i: nat, off: set<Id>)
    requires i <= |list|
  {
    && (forall k :: 0 <= k < i ==> list[k] in off)
    && (forall m :: m in off ==> m in list[..i])
  }

  lemma TakenStep(list: seq<Id>, i: nat, off: set<Id>)
    requires Distinct(list) && i < |list| && Taken(list, i, off)
    ensures list[i] !in off && Taken(list, i + 1, off + {list[i]})
  {
    assert list[..i + 1] == list[..i] + [list[i]];
  }

  lemma HasPending(g: Graph, n: Id, m: Id, list: seq<Id>, degree: map<Id, nat>, done: set<Id>)
    requires m in list && ListsDependentsOf(g, n, list) && CountsPending(g, degree, done) && n !in done
    ensures m in degree && degree[m] > 0
  {
    Pending(g, n, m, done);
  }

  method CountDown(ghost degree0: map<Id, nat>, degree1: map<Id, nat>, ready1: seq<Id>, ghost off: set<Id>, m: Id)
    returns (degree: map<Id, nat>, ready: seq<Id>)
    requires ReleaseInvariant(degree0, degree1, ready1, off) && m in degree0 && m !in off && degree0[m] > 0
    ensures ReleaseInvariant(degree0, degree, ready, off + {m})
  {
    ReleaseOne(degree0, degree1, ready1, off, m);
    degree, ready := degree1[m := degree1[m] - 1], ready1;
    if degree[m] == 0 { ready := ready + [m]; }
  }

  lemma ReleaseEnd(g: Graph, n: Id, list: seq<Id>, degree0: map<Id, nat>, degree: map<Id, nat>, ready: seq<Id>,
                   off: set<Id>, done: set<Id>)
    requires CountsPending(g, degree0, done) && n !in done && ReleaseInvariant(degree0, degree, ready, off)
    requires ListsDependentsOf(g, n, list) && Taken(list, |list|, off)
    ensures CountsPending(g, degree, done + {n})
    ensures forall m :: m in ready <==> m in degree0 && degree0[m] > 0 && degree[m] == 0
  {
    assert list[..|list|] == list;
    forall m | m in degree
      ensures degree[m] == |DepsOf(g, m) - (done + {n})|
    {
      Pending(g, n, m, done);
      if n in DepsOf(g, m) {
        assert m in list;
        var k :| 0 <= k < |list| && list[k] == m;
      }
    }
  }

  /** The ids of `off` have been counted down once; those at zero are in `ready`. */
  ghost predicate ReleaseInvariant(degree0: map<Id, nat>, degree: map<Id, nat>, ready: seq<Id>, off: set<Id>) {
    && degree.Keys == degree0.Keys
    && (forall m :: m in degree ==> degree0[m] == degree[m] + if m in off then 1 else 0)
    && Distinct(ready)
    && (forall m :: m in ready <==> m in degree && m in off && degree[m] == 0)
  }

  lemma ReleaseOne(degree0: map<Id, nat>, degree: map<Id, nat>, ready: seq<Id>, off: set<Id>, m: Id)
    requires ReleaseInvariant(degree0, degree, ready, off) && m in degree0 && m !in off && degree0[m] > 0
    ensures
      var degree' := degree[m := degree[m] - 1];
      ReleaseInvariant(degree0, degree', if degree'[m] == 0 then ready + [m] else ready, off + {m})
  {
    assert m !in ready;
    DistinctAppend(ready, m);
  }

  /** Counting `n` off matters only to its dependents, and they had it to count. */
  lemma Pending(g: Graph, n: Id, m: Id, done: set<Id>)
    requires n !in done
    ensures |DepsOf(g, m) - (done + {n})| ==
            if n in DepsOf(g, m) then |DepsOf(g, m) - done| - 1 else |DepsOf(g, m) - done|
    ensures n in DepsOf(g, m) ==> m in Nodes(g) && |DepsOf(g, m) - done| > 0
  {
    var waiting := DepsOf(g, m) - done;
    assert DepsOf(g, m) - (done + {n}) == waiting - {n};
    if n !in DepsOf(g, m) { assert waiting - {n} == waiting; }
  }

  /** The state of the algorithm between two rounds. */
  ghost predicate KahnInvariant(g: Graph, degree: map<Id, nat>, order: seq<Id>, queue: seq<Id>, done: set<Id>) {
    && (forall n :: n in done <==> n in order)
    && CountsPending(g, degree, done)
    && Distinct(order + queue)
    && (forall n :: n in order + queue <==> n in degree && degree[n] == 0)
    && DependenciesFirst(g, order)
  }

  lemma StepKeepsOrder(g: Graph, order: seq<Id>, n: Id, done: set<Id>)
    requires DependenciesFirst(g, order) && forall m :: m in done <==> m in order
    requires |DepsOf(g, n) - done| == 0
    ensures DependenciesFirst(g, order + [n])
  {
    assert DepsOf(g, n) - done == {};
    var order' := order + [n];
    forall i, d | 0 <= i < |order'| && d in DepsOf(g, order'[i])
      ensures d in order'[..i]
    {
      if i < |order| {
        assert order'[..i] == order[..i];
      } else {
        assert order'[i] == n;
        assert order'[..i] == order;
      }
    }
  }

  lemma HeadIsNew(order: seq<Id>, queue: seq<Id>)
    requires Distinct(order + queue) && queue != []
    ensures queue[0] !in order && queue[0] in order + queue
    ensures (order + [queue[0]]) + queue[1..] == order + queue
  {
    var s := order + queue;
    assert s[|order|] == queue[0];
    assert forall i :: 0 <= i < |order| ==> s[i] == order[i];
  }

  lemma ListedGrows(listed: seq<Id>, ready: seq<Id>)
    requires Distinct(listed) && Distinct(ready) && forall m :: m in ready ==> m !in listed
    ensures Distinct(listed + ready)
    ensures forall m :: m in listed + ready <==> m in listed || m in ready
  {
    forall i, j | 0 <= i < |listed| && 0 <= j < |ready|
      ensures listed[i] != ready[j]
    {
      assert ready[j] in ready;
    }
    DistinctConcat(listed, ready);
  }

  lemma StepKeepsInvariant(g: Graph, degree: map<Id, nat>, order: seq<Id>, queue: seq<Id>, done: set<Id>,
                           degree': map<Id, nat>, ready: seq<Id>)
    requires KahnInvariant(g, degree, order, queue, done) && queue != []
    requires CountsPending(g, degree', done + {queue[0]})
    requires Distinct(ready)
    requires forall m :: m in ready <==> m in degree && degree[m] > 0 && degree'[m] == 0
    ensures KahnInvariant(g, degree', order + [queue[0]], queue[1..] + ready, done + {queue[0]})
  {
    var n, listed := queue[0], order + queue;
    HeadIsNew(order, queue);
    StepKeepsOrder(g, order, n, done);
    ListedGrows(listed, ready);
    StillZero(g, degree, done, degree', n);
    Assoc(order + [n], queue[1..], ready);
  }

  lemma StillZero(g: Graph, degree: map<Id, nat>, done: set<Id>, degree': map<Id, nat>, n: Id)
    requires CountsPending(g, degree, done) && CountsPending(g, degree', done + {n})
    ensures forall m :: m in degree' && degree[m] == 0 ==> degree'[m] == 0
  {
    forall m | m in degree' && degree[m] == 0
      ensures degree'[m] == 0
    {
      assert DepsOf(g, m) - done == {};
      assert DepsOf(g, m) - (done + {n}) == {};
    }
  }

  /** What is left when the queue runs dry waits for itself. */
  lemma LeftoverIsTrapped(g: Graph, degree: map<Id, nat>, order: seq<Id>, done: set<Id>)
    requires KahnInvariant(g, degree, order, [], done)
    ensures IsTrapped(g, Nodes(g) - done)
  {
    forall m | m in Nodes(g) - done
      ensures DepsOf(g, m) * (Nodes(g) - done) != {}
    {
      assert degree[m] > 0;
      var d :| d in DepsOf(g, m) - done;
      assert d in Nodes(g);
      assert d in DepsOf(g, m) * (Nodes(g) - done);
    }
  }

  lemma {:induction false} DistinctSize(s: seq<Id>, elements: set<Id>)
    requires Distinct(s) && forall n :: n in elements <==> n in s
    ensures |elements| == |s|
  {
    if s == [] {
      assert elements == {};
    } else {
      HeadTail(s);
      DistinctSize(s[1..], elements - {s[0]});
    }
  }

  lemma FinishedOrder(g: Graph, degree: map<Id, nat>, order: seq<Id>, done: set<Id>)
    requires KahnInvariant(g, degree, order, [], done)
    ensures |order| == |degree| ==> IsTopological(g, order) && !HasCycle(g)
    ensures |order| != |degree| ==> HasCycle(g)
  {
    assert order + [] == order;
    assert done <= Nodes(g);
    DistinctSize(order, done);
    assert |degree| == |Nodes(g)|;
    if |order| != |degree| {
      assert Nodes(g) - done != {};
      LeftoverIsTrapped(g, degree, order, done);
      TrappedIsCyclic(g, Nodes(g) - done);
    } else {
      SubsetOfSameSize(done, Nodes(g));
      OrderedIsAcyclic(g, order);
    }
  }

  /** What is listed and what is still to come make up the order. */
  ghost predicate Ahead(g: Graph, order: seq<Id>, queue: seq<Id>, done: set<Id>) {
    order + KahnFrom(g, queue, done) == KahnOrder(g)
  }

  lemma AheadAtStart(g: Graph)
    ensures Ahead(g, [], NameOrder(Roots(g)), {})
  {
    assert [] + KahnOrder(g) == KahnOrder(g);
  }

  lemma NothingAhead(g: Graph, order: seq<Id>, done: set<Id>)
    ensures Ahead(g, order, [], done) <==> order == KahnOrder(g)
  {
    assert order + [] == order;
  }

  lemma ReadyIsFreed(g: Graph, n: Id, done: set<Id>, degree0: map<Id, nat>, degree: map<Id, nat>)
    requires CountsPending(g, degree0, done) && CountsPending(g, degree, done + {n}) && n !in done
    ensures forall m :: m in Freed(g, n, done) <==> m in degree0 && degree0[m] > 0 && degree[m] == 0
  {
    forall m | m in Nodes(g)
      ensures m in Freed(g, n, done) <==> degree0[m] > 0 && degree[m] == 0
    {
      WaitsOnly(DepsOf(g, m), done, n);
    }
  }

  lemma WaitsOnly(deps: set<Id>, done: set<Id>, n: Id)
    requires n !in done
    ensures n in deps && deps <= done + {n} <==> |deps - done| > 0 && |deps - (done + {n})| == 0
  {
    if deps <= done + {n} { assert deps - (done + {n}) == {}; }
    if n in deps { assert n in deps - done; }
    if |deps - (done + {n})| == 0 && |deps - done| > 0 {
      assert deps - (done + {n}) == {};
      var d :| d in deps - done;
    }
  }

  /** One round: takes the next id, counts it off, and queues what became ready in name order. */
  method Round(g: Graph, dependents: map<Id, seq<Id>>, degree0: map<Id, nat>, order0: seq<Id>, queue0: seq<Id>,
               ghost done: set<Id>)
    returns (degree: map<Id, nat>, order: seq<Id>, queue: seq<Id>)
    requires ListsDistinct(dependents) && ListsAll(g, g.Keys, dependents)
    requires KahnInvariant(g, degree0, order0, queue0, done) && queue0 != []
    ensures queue0[0] in Nodes(g) - done
    ensures KahnInvariant(g, degree, order, queue, done + {queue0[0]})
    ensures Ahead(g, order0, queue0, done) ==> Ahead(g, order, queue, done + {queue0[0]})
  {
    var n := queue0[0];
    HeadIsNew(order0, queue0);
    DependentsListed(g, dependents, n);
    var ready;
    degree, ready := Release(g, n, ListAt(dependents, n), degree0, done);
    ReadyIsFreed(g, n, done, degree0, degree);
    SortGivesNameOrder(ready, Freed(g, n, done));
    SortIsPermutation(ready);
    ready := Sort(ready);
    StepKeepsInvariant(g, degree0, order0, queue0, done, degree, ready);
    order, queue := order0 + [n], queue0[1..] + ready;
    KahnStep(g, order0, queue0, done);
  }

  lemma InitialQueue(g: Graph, degree: map<Id, nat>, queue: seq<Id>)
    requires CountsPending(g, degree, {})
    requires Distinct(queue) && forall n :: n in queue <==> n in degree && degree[n] == 0
    ensures KahnInvariant(g, degree, [], queue, {})
  {
    assert [] + queue == queue;
  }

  lemma RootsHaveNone(g: Graph, degree: map<Id, nat>)
    requires CountsPending(g, degree, {})
    ensures forall n :: n in Roots(g) <==> n in degree && degree[n] == 0
  {
    forall n | n in Nodes(g)
      ensures n in Roots(g) <==> degree[n] == 0
    {
      assert DepsOf(g, n) - {} == DepsOf(g, n);
    }
  }

  /** The ids that depend on nothing, in name order. */
  method Seeds(g: Graph, degree: map<Id, nat>) returns (queue: seq<Id>)
    requires CountsPending(g, degree, {})
    ensures KahnInvariant(g, degree, [], queue, {})
    ensures queue == NameOrder(Roots(g))
  {
    RootsHaveNone(g, degree);
    var seeds := ListOf(set n | n in degree && degree[n] == 0);
    SortGivesNameOrder(seeds, Roots(g));
    SortIsPermutation(seeds);
    queue := Sort(seeds);
    InitialQueue(g, degree, queue);
  }

  /** `topo_order`: every node once, dependencies first, names breaking ties, or an error exactly when
      there is a cycle. */
  method TopoOrder(g: Graph) returns (r: Result<seq<Id>, LifecycleError>)
    ensures r.Ok? ==> IsTopological(g, r.value) && r.value == KahnOrder(g)
    ensures r.Ok? <==> !HasCycle(g)
    ensures r.Err? ==> r.error == CyclicDependency
  {
    var degree, dependents := BuildIndex(g);
    var queue := Seeds(g, degree);
    var order: seq<Id> := [];
    ghost var done: set<Id> := {};
    AheadAtStart(g);
    while queue != []
      invariant KahnInvariant(g, degree, order, queue, done)
      invariant Ahead(g, order, queue, done)
      decreases Nodes(g) - done
    {
      ghost var n := queue[0];
      degree, order, queue := Round(g, dependents, degree, order, queue, done);
      done := done + {n};
    }
    FinishedOrder(g, degree, order, done);
    NothingAhead(g, order, done);
    r := if |order| != |degree| then Err(CyclicDependency) else Ok(order);
  }

  lemma KahnStep(g: Graph, order: seq<Id>, queue: seq<Id>, done: set<Id>)
    requires queue != []
    ensures queue[0] in Nodes(g) - done ==>
              order + KahnFrom(g, queue, done) ==
                  order + [queue[0]] + KahnFrom(g, queue[1..] + NameOrder(Freed(g, queue[0], done)), done + {queue[0]})
  {
    Assoc(order, [queue[0]], KahnFrom(g, queue[1..] + NameOrder(Freed(g, queue[0], done)), done + {queue[0]}));
  }

  lemma DependentsListed(g: Graph, dependents: map<Id, seq<Id>>, n: Id)
    requires ListsDistinct(dependents) && ListsAll(g, g.Keys, dependents)
    ensures Distinct(ListAt(dependents, n)) && ListsDependentsOf(g, n, ListAt(dependents, n))
  {}

  lemma SubsetOfSameSize(a: set<Id>, b: set<Id>)
    requires a <= b && |a| == |b|
    ensures a == b
  {
    assert b == a + (b - a);
    assert |b| == |a| + |b - a|;
  }

  method ListOf(s: set<Id>) returns (q: seq<Id>)
    ensures Distinct(q) && forall n :: n in q <==> n in s
  {
    q := [];
    var left := s;
    while left != {}
      invariant left <= s && Distinct(q) && forall n :: n in q <==> n in s - left
      decreases left
    {
      var n :| n in left;
      DistinctAppend(q, n);
      q, left := q + [n], left - {n};
    }
  }

  // ---- closures ----------------------------------------------------------------------

  /** `dependency_closure`: exactly the ids that `id` reaches, itself included. */
  method DependencyClosure(g: Graph, id: Id) returns (seen: set<Id>)
    ensures forall d :: d in seen <==> Reaches(g, id, d)
  {
    seen := {};
    var stack := [id];
    ReachesItself(g, id);
    while stack != []
      invariant forall d :: d in seen || d in stack ==> Reaches(g, id, d)
      invariant id in seen || id in stack
      invariant forall n, d :: n in seen && d in DepsOf(g, n) ==> d in seen || d in stack
      invariant seen <= Nodes(g) + {id}
      decreases Nodes(g) + {id} - seen, |stack|
    {
      var n := stack[|stack| - 1];
      var below := stack[..|stack| - 1];
      assert stack == below + [n];
      if n in seen {
        stack := below;
      } else {
        assert n in Nodes(g) + {id} by { ReachedIsNode(g, id, n); }
        var ds := ListOf(DepsOf(g, n));
        forall d | d in ds ensures Reaches(g, id, d) { ReachesNext(g, id, n, d); }
        seen, stack := seen + {n}, below + ds;
      }
    }
    forall d | Reaches(g, id, d) ensures d in seen {
      var p :| p != [] && IsWalk(g, p) && p[0] == id && p[|p| - 1] == d;
      ClosedHoldsWalk(g, seen, p);
    }
  }

  lemma ReachedIsNode(g: Graph, id: Id, n: Id)
    requires Reaches(g, id, n)
    ensures n in Nodes(g) + {id}
  {
    var p :| p != [] && IsWalk(g, p) && p[0] == id && p[|p| - 1] == n;
    if |p| > 1 { assert n in DepsOf(g, p[|p| - 2]); }
  }

  /** `dependent_closure`: exactly the ids that reach `id`, itself included. */
  method DependentClosure(g: Graph, id: Id) returns (seen: set<Id>)
    ensures forall m :: m in seen <==> Reaches(g, m, id)
  {
    seen := {};
    var stack := [id];
    ReachesItself(g, id);
    while stack != []
      invariant forall m :: m in seen || m in stack ==> Reaches(g, m, id) && m in g.Keys + {id}
      invariant id in seen || id in stack
      invariant forall m, d :: d in seen && d in DepsOf(g, m) ==> m in seen || m in stack
      decreases g.Keys + {id} - seen, |stack|
    {
      var n := stack[|stack| - 1];
      var below := stack[..|stack| - 1];
      assert stack == below + [n];
      if n in seen {
        stack := below;
      } else {
        var ms := ListOf(set m | m in g && n in g[m]);
        forall m | m in ms ensures Reaches(g, m, id) { ReachesBefore(g, m, n, id); }
        seen, stack := seen + {n}, below + ms;
      }
    }
    forall m | Reaches(g, m, id) ensures m in seen {
      var p :| p != [] && IsWalk(g, p) && p[0] == m && p[|p| - 1] == id;
      ClosedHoldsBack(g, seen, p);
    }
  }
}
