/** Dependency graphs: paths, cycles and dependency-first orders. */
module LifecycleGraph {
  import opened Seqs

  type Id = string

  /** `g[n]` is the set of ids that `n` depends on. */
  type Graph = map<Id, set<Id>>

  function DepsOf(g: Graph, n: Id): set<Id> {
    if n in g then g[n] else {}
  }

  /** Every id mentioned, as a key or as a dependency. */
  function Nodes(g: Graph): set<Id> {
    g.Keys + set n, d | n in g && d in g[n] :: d
  }

  predicate IsWalk(g: Graph, p: seq<Id>) {
    forall i :: 0 <= i < |p| - 1 ==> p[i + 1] in DepsOf(g, p[i])
  }

  /** Some id depends on itself, directly or through others. */
  ghost predicate HasCycle(g: Graph) {
    exists p :: |p| >= 2 && IsWalk(g, p) && p[0] == p[|p| - 1]
  }

  predicate Distinct<T(==)>(s: seq<T>) {
    forall i, j :: 0 <= i < j < |s| ==> s[i] != s[j]
  }

  lemma DistinctAppend<T>(s: seq<T>, x: T)
    requires Distinct(s) && x !in s
    ensures Distinct(s + [x])
  {}

  lemma DistinctConcat<T>(a: seq<T>, b: seq<T>)
    requires Distinct(a) && Distinct(b)
    requires forall i, j :: 0 <= i < |a| && 0 <= j < |b| ==> a[i] != b[j]
    ensures Distinct(a + b)
  {
    var s := a + b;
    forall i, j | 0 <= i < j < |s|
      ensures s[i] != s[j]
    {
      if i < |a| <= j { assert a[i] != b[j - |a|]; }
    }
  }

  /** Each id comes after everything it depends on. */
  predicate DependenciesFirst(g: Graph, order: seq<Id>) {
    forall i, d :: 0 <= i < |order| && d in DepsOf(g, order[i]) ==> d in order[..i]
  }

  /** A dependency-first listing of all nodes, each once. */
  ghost predicate IsTopological(g: Graph, order: seq<Id>) {
    && Distinct(order)
    && (forall n :: n in order <==> n in Nodes(g))
    && DependenciesFirst(g, order)
  }

  lemma WalkSuffix(g: Graph, p: seq<Id>, i: nat)
    requires IsWalk(g, p) && i <= |p|
    ensures IsWalk(g, p[i..])
  {
    var q := p[i..];
    forall k | 0 <= k < |q| - 1
      ensures q[k + 1] in DepsOf(g, q[k])
    {
      assert q[k] == p[i + k] && q[k + 1] == p[i + k + 1];
    }
  }

  // ---- an order rules out cycles -----------------------------------------------

  lemma {:induction false} WalkGoesBack(g: Graph, order: seq<Id>, p: seq<Id>, i: nat) returns (j: nat)
    requires DependenciesFirst(g, order) && IsWalk(g, p) && p != [] && i < |order| && order[i] == p[0]
    ensures j <= i && order[j] == p[|p| - 1] && (|p| > 1 ==> j < i)
    decreases |p|
  {
    if |p| == 1 {
      j := i;
    } else {
      assert p[1] in DepsOf(g, order[i]);
      assert p[1] in order[..i];
      var k :| 0 <= k < i && order[k] == p[1];
      WalkSuffix(g, p, 1);
      j := WalkGoesBack(g, order, p[1..], k);
    }
  }

  lemma OrderedIsAcyclic(g: Graph, order: seq<Id>)
    requires IsTopological(g, order)
    ensures !HasCycle(g)
  {
    if HasCycle(g) {
      var p :| |p| >= 2 && IsWalk(g, p) && p[0] == p[|p| - 1];
      assert p[1] in DepsOf(g, p[0]);
      assert p[0] in order;
      var i :| 0 <= i < |order| && order[i] == p[0];
      var j := WalkGoesBack(g, order, p, i);
      assert false;
    }
  }

  // ---- without an order there is a cycle ---------------------------------------------

  /** Every id of a set has a dependency inside the set. */
  predicate IsTrapped(g: Graph, s: set<Id>) {
    forall n :: n in s ==> DepsOf(g, n) * s != {}
  }

  lemma {:induction false} WalkInTrap(g: Graph, s: set<Id>, p: seq<Id>, seen: set<Id>)
    requires IsTrapped(g, s) && p != [] && IsWalk(g, p)
    requires seen <= s && forall n :: n in seen <==> n in p
    ensures HasCycle(g)
    decreases s - seen
  {
    var last := p[|p| - 1];
    assert last in seen;
    var d :| d in DepsOf(g, last) * s;
    var q := p + [d];
    assert IsWalk(g, q);
    if d in p {
      var i :| 0 <= i < |p| && p[i] == d;
      var c := q[i..];
      WalkSuffix(g, q, i);
      assert c[0] == d && c[|c| - 1] == d;
    } else {
      WalkInTrap(g, s, q, seen + {d});
    }
  }

  lemma TrappedIsCyclic(g: Graph, s: set<Id>)
    requires IsTrapped(g, s) && s != {}
    ensures HasCycle(g)
  {
    var n :| n in s;
    WalkInTrap(g, s, [n], {n});
  }

  // ---- reachability ------------------------------------------------------------------

  /** `d` is reached from `n` along dependencies. */
  ghost predicate Reaches(g: Graph, n: Id, d: Id) {
    exists p :: p != [] && IsWalk(g, p) && p[0] == n && p[|p| - 1] == d
  }

  lemma ReachesItself(g: Graph, n: Id)
    ensures Reaches(g, n, n)
  {
    assert [n][0] == n && IsWalk(g, [n]);
  }

  lemma ReachesNext(g: Graph, n: Id, d: Id, e: Id)
    requires Reaches(g, n, d) && e in DepsOf(g, d)
    ensures Reaches(g, n, e)
  {
    var p :| p != [] && IsWalk(g, p) && p[0] == n && p[|p| - 1] == d;
    var q := p + [e];
    assert IsWalk(g, q) && q[0] == n && q[|q| - 1] == e;
  }

  lemma ReachesBefore(g: Graph, m: Id, n: Id, d: Id)
    requires n in DepsOf(g, m) && Reaches(g, n, d)
    ensures Reaches(g, m, d)
  {
    var p :| p != [] && IsWalk(g, p) && p[0] == n && p[|p| - 1] == d;
    var q := [m] + p;
    assert IsWalk(g, q) && q[0] == m && q[|q| - 1] == d;
  }

  /** A set that holds `n` and all dependencies of its members holds all that `n` reaches. */
  lemma {:induction false} ClosedHoldsWalk(g: Graph, s: set<Id>, p: seq<Id>)
    requires p != [] && IsWalk(g, p) && p[0] in s
    requires forall m, d :: m in s && d in DepsOf(g, m) ==> d in s
    ensures p[|p| - 1] in s
    decreases |p|
  {
    if |p| > 1 {
      assert p[1] in DepsOf(g, p[0]);
      WalkSuffix(g, p, 1);
      ClosedHoldsWalk(g, s, p[1..]);
    }
  }

  /** A set that holds `d` and all dependents of its members holds all that reach `d`. */
  lemma {:induction false} ClosedHoldsBack(g: Graph, s: set<Id>, p: seq<Id>)
    requires p != [] && IsWalk(g, p) && p[|p| - 1] in s
    requires forall m, d :: d in s && d in DepsOf(g, m) ==> m in s
    ensures p[0] in s
    decreases |p|
  {
    if |p| > 1 {
      var q := p[..|p| - 1];
      assert p[|p| - 1] in DepsOf(g, p[|p| - 2]);
      assert IsWalk(g, q);
      ClosedHoldsBack(g, s, q);
    }
  }

  // ---- filtered orders -----------------------------------------------------------------

  function Filter(order: seq<Id>, keep: set<Id>): seq<Id> {
    if order == [] then []
    else (if order[0] in keep then [order[0]] else []) + Filter(order[1..], keep)
  }

  lemma {:induction false} FilterElements(order: seq<Id>, keep: set<Id>, n: Id)
    ensures n in Filter(order, keep) <==> n in order && n in keep
  {
    if order != [] {
      FilterElements(order[1..], keep, n);
      HeadTail(order);
    }
  }

  lemma {:induction false} FilterPrefix(order: seq<Id>, keep: set<Id>, i: nat) returns (j: nat)
    requires i < |Filter(order, keep)|
    ensures j < |order| && order[j] == Filter(order, keep)[i] && Filter(order, keep)[..i] == Filter(order[..j], keep)
  {
    var head := if order[0] in keep then [order[0]] else [];
    if i < |head| {
      j := 0;
    } else {
      var k := FilterPrefix(order[1..], keep, i - |head|);
      j := k + 1;
      assert order[..j][1..] == order[1..][..k];
      assert Filter(order, keep)[..i] == head + Filter(order[1..], keep)[..i - |head|];
    }
  }

  lemma {:induction false} FilterDistinct(order: seq<Id>, keep: set<Id>)
    requires Distinct(order)
    ensures Distinct(Filter(order, keep))
  {
    if order != [] {
      FilterDistinct(order[1..], keep);
      FilterElements(order[1..], keep, order[0]);
    }
  }

  /** Keeping a set closed under dependencies keeps dependencies first. */
  lemma FilterKeepsOrder(g: Graph, order: seq<Id>, keep: set<Id>)
    requires DependenciesFirst(g, order) && Distinct(order)
    requires forall m, d :: m in keep && d in DepsOf(g, m) ==> d in keep
    ensures DependenciesFirst(g, Filter(order, keep)) && Distinct(Filter(order, keep))
  {
    FilterDistinct(order, keep);
    var f := Filter(order, keep);
    forall i, d | 0 <= i < |f| && d in DepsOf(g, f[i])
      ensures d in f[..i]
    {
      var j := FilterPrefix(order, keep, i);
      FilterElements(order, keep, f[i]);
      FilterElements(order[..j], keep, d);
    }
  }

  /** Dependents of any id of the order come earlier. */
  predicate DependentsFirst(g: Graph, order: seq<Id>) {
    forall i, m :: 0 <= i < |order| && m in g && order[i] in g[m] ==> m in order[..i]
  }

  function Reverse<T>(s: seq<T>): (r: seq<T>)
    ensures |r| == |s| && forall i :: 0 <= i < |s| ==> r[i] == s[|s| - 1 - i]
  {
    if s == [] then [] else Reverse(s[1..]) + [s[0]]
  }

  /** In reverse, a set closed under dependents has dependents first. */
  lemma ReverseFilter(g: Graph, order: seq<Id>, keep: set<Id>)
    requires IsTopological(g, order)
    requires forall m, d :: m in g && d in keep && d in g[m] ==> m in keep
    ensures DependentsFirst(g, Reverse(Filter(order, keep))) && Distinct(Reverse(Filter(order, keep)))
  {
    FilterDistinct(order, keep);
    var f := Filter(order, keep);
    var r := Reverse(f);
    forall i, m | 0 <= i < |r| && m in g && r[i] in g[m]
      ensures m in r[..i]
    {
      var k := DependentLater(g, order, keep, |f| - 1 - i, m);
      assert r[|f| - 1 - k] == m;
    }
  }

  lemma DependentLater(g: Graph, order: seq<Id>, keep: set<Id>, l: nat, m: Id) returns (k: nat)
    requires IsTopological(g, order)
    requires forall m, d :: m in g && d in keep && d in g[m] ==> m in keep
    requires l < |Filter(order, keep)| && m in g && Filter(order, keep)[l] in g[m]
    ensures l < k < |Filter(order, keep)| && Filter(order, keep)[k] == m
  {
    var f := Filter(order, keep);
    FilterElements(order, keep, f[l]);
    FilterElements(order, keep, m);
    k :| 0 <= k < |f| && f[k] == m;
    var j := FilterPrefix(order, keep, k);
    FilterElements(order[..j], keep, f[l]);
    assert f[l] in f[..k];
    FilterDistinct(order, keep);
  }
}
