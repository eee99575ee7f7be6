/** Starters and stoppers at the same time: `start_one` and `stop_one` of `lifecycle/manager.rs`. */
module LifecycleClaims {
  import opened Wrappers
  import opened LifecycleGraph
  import opened LifecycleRun

  /** One component among its tasks. `state` is what its watcher shows, if it is registered; `starting` counts the
      calls of its `start` that are under way, and `lost` those of them whose claim something has written over;
      `seen` counts the stops that have looked at the state and go on, `stopping` those that have marked it. */
  datatype Component = Component(state: Option<State>, starting: nat, lost: nat, seen: nat, stopping: nat)

  const NOBODY := Component(None, 0, 0, 0, 0)

  /** A component that has just been registered. */
  const FRESH := Component(Some(Unknown), 0, 0, 0, 0)

  /** What a task does under one hold of the lock. A start that ends, or is dropped by its caller, is the one whose
      claim the state still shows (`own`) or one whose claim is lost. */
  datatype Act =
    | Claim
    | Started(own: bool, ok: bool)
    | Dropped(own: bool)
    | StopSeen
    | StopMark
    | StopDone(ok: bool)

  datatype Step = Step(id: Id, act: Act)

  type Components = map<Id, Component>

  function At(c: Components, id: Id): Component {
    if id in c then c[id] else NOBODY
  }

  /** The test of the claim: it is not won. */
  predicate IsTaken(p: Component) {
    p.state in {None, Some(Starting), Some(Running)}
  }

  predicate UnderWay(p: Component, own: bool) {
    if own then p.starting > p.lost else p.starting > 0 && p.lost > 0
  }

  /** A start is no longer under way. */
  function Ended(p: Component, own: bool): Component
    requires UnderWay(p, own)
  {
    if own then p.(starting := p.starting - 1) else p.(starting := p.starting - 1, lost := p.lost - 1)
  }

  /** `transition`. Whoever claimed `Starting` and is still under way has lost that claim. */
  function Written(p: Component, s: State): Component {
    if p.state.None? then p else p.(state := Some(s), lost := p.starting)
  }

  function TakeAct(p: Component, a: Act): Component {
    match a
    case Claim => if IsTaken(p) then p else p.(state := Some(Starting), starting := p.starting + 1)
    case Started(own, ok) =>
      if UnderWay(p, own) then Written(Ended(p, own), if ok then Running else Error) else p
    case Dropped(own) => if UnderWay(p, own) then Ended(p, own) else p
    case StopSeen =>
      if p.state in {None, Some(Stopped), Some(Unknown)} then p else p.(seen := p.seen + 1)
    case StopMark =>
      if p.seen == 0 then p else Written(p.(seen := p.seen - 1, stopping := p.stopping + 1), Stopping)
    case StopDone(ok) =>
      if p.stopping == 0 then p
      else Written(p.(stopping := p.stopping - 1), if ok then Stopped else Error)
  }

  function Take(c: Components, step: Step): Components {
    c[step.id := TakeAct(At(c, step.id), step.act)]
  }

  function TakeAll(c: Components, steps: seq<Step>): Components
    decreases |steps|
  {
    if steps == [] then c else TakeAll(Take(c, steps[0]), steps[1..])
  }

  // ---- how many starts are under way --------------------------------------------------------------

  /** The starts under way are the lost ones, and at most one more, whose claim the state shows. */
  predicate Counted(p: Component) {
    && p.lost <= p.starting <= p.lost + 1
    && (p.starting > p.lost ==> p.state == Some(Starting))
  }

  lemma {:induction false} StartsUnderWay(c: Components, steps: seq<Step>, id: Id)
    requires Counted(At(c, id))
    ensures Counted(At(TakeAll(c, steps), id))
    decreases |steps|
  {
    if steps != [] { StartsUnderWay(Take(c, steps[0]), steps[1..], id); }
  }

  /** In every run from a fresh component, whatever the tasks of it and of others do, there is at most one start
      under way besides those whose claim was written over. */
  lemma OneStarter(steps: seq<Step>, id: Id)
    ensures var p := At(TakeAll(map[id := FRESH], steps), id);
            p.lost <= p.starting <= p.lost + if p.state == Some(Starting) then 1 else 0
  {
    StartsUnderWay(map[id := FRESH], steps, id);
  }

  /** What tasks have done to a component: claims won and starts ended; looks that go on, marks and ends of stops. */
  datatype Ledger = Ledger(won: nat, ended: nat, looked: nat, marked: nat, done: nat)

  /** One more entry, if the step did anything to the component. */
  function Booked(b: Ledger, p: Component, a: Act): Ledger {
    match a
    case Claim =>
      if p.state == None || p.state == Some(Starting) || p.state == Some(Running) then b else b.(won := b.won + 1)
    case Started(own, _) => if UnderWay(p, own) then b.(ended := b.ended + 1) else b
    case Dropped(own) => if UnderWay(p, own) then b.(ended := b.ended + 1) else b
    case StopSeen =>
      if p.state == None || p.state == Some(Stopped) || p.state == Some(Unknown) then b
      else b.(looked := b.looked + 1)
    case StopMark => if p.seen > 0 then b.(marked := b.marked + 1) else b
    case StopDone(_) => if p.stopping > 0 then b.(done := b.done + 1) else b
  }

  function BookedAll(b: Ledger, c: Components, steps: seq<Step>, id: Id): Ledger
    decreases |steps|
  {
    if steps == [] then b
    else
      var next := if steps[0].id == id then Booked(b, At(c, id), steps[0].act) else b;
      BookedAll(next, Take(c, steps[0]), steps[1..], id)
  }

  predicate Balanced(b: Ledger, p: Component) {
    b.won == b.ended + p.starting && b.looked == b.marked + p.seen && b.marked == b.done + p.stopping
  }

  /** Every start under way is a claim that was won and has not ended; every stop that marks has looked first, and every
      one that ends has marked. */
  lemma {:induction false} TasksAreReal(b: Ledger, c: Components, steps: seq<Step>, id: Id)
    requires Balanced(b, At(c, id))
    ensures Balanced(BookedAll(b, c, steps, id), At(TakeAll(c, steps), id))
    decreases |steps|
  {
    if steps != [] {
      var a := steps[0].act;
      if steps[0].id == id {
        BookBalances(b, At(c, id), a);
        TasksAreReal(Booked(b, At(c, id), a), Take(c, steps[0]), steps[1..], id);
      } else {
        TasksAreReal(b, Take(c, steps[0]), steps[1..], id);
      }
    }
  }

  lemma BookBalances(b: Ledger, p: Component, a: Act)
    requires Balanced(b, p)
    ensures Balanced(Booked(b, p, a), TakeAct(p, a))
  {
    match a
    case Claim => assert IsTaken(p) <==> p.state == None || p.state == Some(Starting) || p.state == Some(Running);
    case Started(own, ok) =>
    case Dropped(own) =>
    case _ =>
  }

  /** Every start under way can end, well or badly or dropped, and then there is one less; one that ends well or badly
      leaves the component running or failed. */
  lemma AnyStartCanEnd(p: Component, own: bool, ok: bool)
    requires Counted(p) && (if own then p.starting > p.lost else p.lost > 0)
    ensures TakeAct(p, Dropped(own)).starting == TakeAct(p, Started(own, ok)).starting == p.starting - 1
    ensures p.state.Some? ==> TakeAct(p, Started(own, ok)).state == Some(if ok then Running else Error)
    ensures TakeAct(p, Dropped(own)).state == p.state
  {}

  /** A stop that has looked marks the component, and ends with it stopped or failed. */
  lemma StopsWrite(p: Component, ok: bool)
    requires p.state.Some?
    ensures p.seen > 0 ==> TakeAct(p, StopMark).state == Some(Stopping)
    ensures p.stopping > 0 ==> TakeAct(p, StopDone(ok)).state == Some(if ok then Stopped else Error)
  {}

  // ---- that bound is reached ------------------------------------------------------------------------

  /** A stop writes over the claim, and another starter comes. */
  function Laps(id: Id, n: nat): seq<Step> {
    if n == 0 then [] else [Step(id, StopSeen), Step(id, StopMark), Step(id, Claim)] + Laps(id, n - 1)
  }

  lemma {:induction false} TakeConcat(c: Components, a: seq<Step>, b: seq<Step>)
    ensures TakeAll(c, a + b) == TakeAll(TakeAll(c, a), b)
    decreases |a|
  {
    if a == [] {
      assert a + b == b;
    } else {
      assert (a + b)[0] == a[0] && (a + b)[1..] == a[1..] + b;
      TakeConcat(Take(c, a[0]), a[1..], b);
    }
  }

  lemma OneLap(c: Components, id: Id)
    requires At(c, id).state == Some(Starting)
    ensures var p := At(c, id); var q := At(TakeAll(c, Laps(id, 1)), id);
            q.state == Some(Starting) && q.starting == p.starting + 1 && q.lost == p.starting
  {
    var seen := Take(c, Step(id, StopSeen));
    var marked := Take(seen, Step(id, StopMark));
    var lap := Laps(id, 1);
    assert lap == [Step(id, StopSeen), Step(id, StopMark), Step(id, Claim)] by { assert Laps(id, 0) == []; }
    assert lap[1..][1..] == [Step(id, Claim)] && [Step(id, Claim)][1..] == [];
    assert TakeAll(c, lap) == TakeAll(seen, lap[1..]) == TakeAll(marked, lap[1..][1..]);
    assert TakeAll(marked, lap[1..][1..]) == Take(marked, Step(id, Claim));
  }

  lemma {:induction false} EachLapAddsOne(c: Components, id: Id, n: nat)
    requires At(c, id).state == Some(Starting) && At(c, id).starting == At(c, id).lost + 1
    ensures var p := At(c, id); var q := At(TakeAll(c, Laps(id, n)), id);
            q.state == Some(Starting) && q.lost == p.lost + n && q.starting == p.starting + n
    decreases n
  {
    if n > 0 {
      assert Laps(id, 1) + Laps(id, n - 1) == Laps(id, n);
      TakeConcat(c, Laps(id, 1), Laps(id, n - 1));
      OneLap(c, id);
      EachLapAddsOne(TakeAll(c, Laps(id, 1)), id, n - 1);
    }
  }

  /** For every `n` there is a run from a fresh component in which `n` stops write over `n` claims, and all the
      `n + 1` starters start the component at the same time. */
  lemma StopsLetManyStart(id: Id, n: nat)
    ensures var p := At(TakeAll(map[id := FRESH], [Step(id, Claim)] + Laps(id, n)), id);
            p.lost == n && p.starting == n + 1
  {
    var first := [Step(id, Claim)];
    var c := map[id := FRESH];
    assert first[1..] == [] && TakeAll(c, first) == Take(c, first[0]);
    TakeConcat(c, first, Laps(id, n));
    EachLapAddsOne(TakeAll(c, first), id, n);
  }

  // ---- exactly when two starters are kept apart -----------------------------------------------------

  predicate IsStarters(a: Act) {
    a.Claim? || a.Started? || a.Dropped?
  }

  predicate StartersOnly(steps: seq<Step>) {
    forall i :: 0 <= i < |steps| ==> IsStarters(steps[i].act)
  }

  /** However many starters come from now on, and whatever becomes of them, no two start the component at a time. */
  ghost predicate OneAtATime(c: Components, id: Id) {
    forall steps :: StartersOnly(steps) ==> At(TakeAll(c, steps), id).starting <= 1
  }

  /** No start is under way, or there is one and a claim would not be won. */
  predicate Guarded(p: Component) {
    p.starting == 0 || (p.starting == 1 && IsTaken(p))
  }

  lemma {:induction false} StartersKeepGuarded(c: Components, steps: seq<Step>, id: Id)
    requires Guarded(At(c, id)) && StartersOnly(steps)
    ensures Guarded(At(TakeAll(c, steps), id))
    decreases |steps|
  {
    if steps != [] { StartersKeepGuarded(Take(c, steps[0]), steps[1..], id); }
  }

  /** The claim keeps starters apart from now on exactly if no start is under way, or one is and the claim's own
      test would turn the next one away. */
  lemma OneAtATimeIff(c: Components, id: Id)
    ensures OneAtATime(c, id) <==> Guarded(At(c, id))
  {
    if Guarded(At(c, id)) {
      forall steps | StartersOnly(steps)
        ensures At(TakeAll(c, steps), id).starting <= 1
      {
        StartersKeepGuarded(c, steps, id);
      }
    } else {
      var next := [Step(id, Claim)];
      assert StartersOnly([]) && StartersOnly(next);
      assert next[1..] == [] && TakeAll(c, next) == Take(c, next[0]);
      assert TakeAll(c, []) == c;
    }
  }

  /** So starters alone, however many, never start a component twice at a time. */
  lemma StartersAlone(c: Components, steps: seq<Step>, id: Id)
    requires At(c, id).starting == 0 && StartersOnly(steps)
    ensures At(TakeAll(c, steps), id).starting <= 1
  {
    OneAtATimeIff(c, id);
  }

  // ---- over whole runs, with stops ------------------------------------------------------------------

  /** This step of a stop writes the component's state. */
  predicate StopWrites(p: Component, a: Act) {
    p.state.Some? && ((a.StopMark? && p.seen > 0) || (a.StopDone? && p.stopping > 0))
  }

  /** Stops write the state of a component only while no start of it is under way. */
  predicate StopsKeepOut(c: Components, steps: seq<Step>, id: Id)
    decreases |steps|
  {
    steps == [] ||
    (&& (steps[0].id == id && StopWrites(At(c, id), steps[0].act) ==> At(c, id).starting == 0)
     && StopsKeepOut(Take(c, steps[0]), steps[1..], id))
  }

  /** At every point of the run the starters are kept apart. */
  ghost predicate AlwaysOneAtATime(c: Components, steps: seq<Step>, id: Id) {
    forall n :: 0 <= n <= |steps| ==> OneAtATime(TakeAll(c, steps[..n]), id)
  }

  predicate AlwaysGuarded(c: Components, steps: seq<Step>, id: Id)
    decreases |steps|
  {
    Guarded(At(c, id)) && (steps == [] || AlwaysGuarded(Take(c, steps[0]), steps[1..], id))
  }

  lemma {:induction false} GuardedAt(c: Components, steps: seq<Step>, id: Id, n: nat)
    requires AlwaysGuarded(c, steps, id) && n <= |steps|
    ensures Guarded(At(TakeAll(c, steps[..n]), id))
    decreases n
  {
    if n > 0 {
      assert steps[..n][0] == steps[0] && steps[..n][1..] == steps[1..][..n - 1];
      GuardedAt(Take(c, steps[0]), steps[1..], id, n - 1);
    }
  }

  lemma {:induction false} UnguardedAt(c: Components, steps: seq<Step>, id: Id) returns (n: nat)
    requires !AlwaysGuarded(c, steps, id)
    ensures n <= |steps| && !Guarded(At(TakeAll(c, steps[..n]), id))
    decreases |steps|
  {
    if !Guarded(At(c, id)) {
      n := 0;
    } else {
      var m := UnguardedAt(Take(c, steps[0]), steps[1..], id);
      n := m + 1;
      assert steps[..n][0] == steps[0] && steps[..n][1..] == steps[1..][..m];
    }
  }

  lemma {:induction false} GuardedIffKeptOut(c: Components, steps: seq<Step>, id: Id)
    requires Guarded(At(c, id))
    ensures AlwaysGuarded(c, steps, id) <==> StopsKeepOut(c, steps, id)
    decreases |steps|
  {
    if steps != [] {
      var next := Take(c, steps[0]);
      StepGuards(c, steps[0], id);
      if Guarded(At(next, id)) { GuardedIffKeptOut(next, steps[1..], id); }
    }
  }

  lemma StepGuards(c: Components, step: Step, id: Id)
    requires Guarded(At(c, id))
    ensures Guarded(At(Take(c, step), id)) <==>
            (step.id == id && StopWrites(At(c, id), step.act) ==> At(c, id).starting == 0)
  {}

  /** The starters are kept apart throughout a run from a fresh component exactly if no stop writes the state while
      a start is under way. */
  lemma KeptApartIff(steps: seq<Step>, id: Id)
    ensures var c := map[id := FRESH]; AlwaysOneAtATime(c, steps, id) <==> StopsKeepOut(c, steps, id)
  {
    var c := map[id := FRESH];
    GuardedIffKeptOut(c, steps, id);
    if AlwaysGuarded(c, steps, id) {
      forall n | 0 <= n <= |steps|
        ensures OneAtATime(TakeAll(c, steps[..n]), id)
      {
        GuardedAt(c, steps, id, n);
        OneAtATimeIff(TakeAll(c, steps[..n]), id);
      }
    } else {
      var n := UnguardedAt(c, steps, id);
      OneAtATimeIff(TakeAll(c, steps[..n]), id);
    }
  }
}
