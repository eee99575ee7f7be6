/** The breaker of `clients/breaker.rs` and its callers: how many trials are really under way. */
module BreakerTrials {
  import opened Wrappers
  import opened CircuitBreaker

  /** A caller asks to go ahead, or reports on a call; `trial` if the breaker admitted that call in the
      half-open period that still lasts. */
  datatype Act = Enter(now: real) | Leave(trial: bool, success: bool, now: real)

  /** The breaker, the admitted calls not reported on yet, and how many late successes are still counted
      against a trial that is under way. */
  datatype Callers = Callers(state: State, trials: nat, older: nat, late: nat)

  const NOBODY := Callers(START, 0, 0, 0)

  function Less(n: nat): nat {
    if n == 0 then 0 else n - 1
  }

  function TakeEnter(c: Config, t: Callers, now: real): Callers {
    var (next, admitted) := Asked(c, t.state, now);
    if !admitted then t.(state := next)
    else if t.state.circuit == HalfOpen then t.(state := next, trials := t.trials + 1)
    else if next.circuit == HalfOpen then Callers(next, 1, t.older + t.trials, 0)
    else Callers(next, 0, t.older + t.trials + 1, 0)
  }

  function TakeLeave(c: Config, t: Callers, trial: bool, success: bool, now: real): Callers {
    var next := Reported(c, t.state, success, now);
    var trials := if trial then Less(t.trials) else t.trials;
    var older := if trial then t.older else Less(t.older);
    if next.circuit != HalfOpen then Callers(next, 0, older + trials, 0)
    else if trial then Callers(next, trials, older, if t.state.inFlight == 0 then Less(t.late) else t.late)
    else Callers(next, trials, older, if t.state.inFlight == 0 then t.late else t.late + 1)
  }

  function Take(c: Config, t: Callers, a: Act): Callers {
    match a
    case Enter(now) => TakeEnter(c, t, now)
    case Leave(trial, success, now) => TakeLeave(c, t, trial, success, now)
  }

  /** Only an admitted call is reported on, and only once. */
  predicate Allowed(t: Callers, a: Act) {
    a.Leave? ==> if a.trial then t.trials > 0 else t.older > 0
  }

  function TakeAll(c: Config, t: Callers, acts: seq<Act>): Callers
    decreases |acts|
  {
    if acts == [] then t else TakeAll(c, Take(c, t, acts[0]), acts[1..])
  }

  predicate Possible(c: Config, t: Callers, acts: seq<Act>)
    decreases |acts|
  {
    acts == [] || (Allowed(t, acts[0]) && Possible(c, Take(c, t, acts[0]), acts[1..]))
  }

  predicate InOrder(since: real, acts: seq<Act>)
    decreases |acts|
  {
    acts == [] || (since <= acts[0].now && InOrder(acts[0].now, acts[1..]))
  }

  function ToEvent(a: Act): Event {
    match a case Enter(now) => Ask(now) case Leave(_, success, now) => Report(success, now)
  }

  function ToEvents(acts: seq<Act>): seq<Event> {
    if acts == [] then [] else [ToEvent(acts[0])] + ToEvents(acts[1..])
  }

  /** What the callers do is a run of the breaker. */
  lemma {:induction false} CallersRun(c: Config, t: Callers, acts: seq<Act>)
    ensures TakeAll(c, t, acts).state == Run(c, t.state, ToEvents(acts))
    decreases |acts|
  {
    if acts != [] {
      CallersRun(c, Take(c, t, acts[0]), acts[1..]);
      assert ([ToEvent(acts[0])] + ToEvents(acts[1..]))[1..] == ToEvents(acts[1..]);
    }
  }

  lemma {:induction false} TakeConcat(c: Config, t: Callers, a: seq<Act>, b: seq<Act>)
    ensures TakeAll(c, t, a + b) == TakeAll(c, TakeAll(c, t, a), b)
    ensures Possible(c, t, a + b) <==> Possible(c, t, a) && Possible(c, TakeAll(c, t, a), b)
    decreases |a|
  {
    if a == [] {
      assert a + b == b;
    } else {
      assert (a + b)[0] == a[0] && (a + b)[1..] == a[1..] + b;
      TakeConcat(c, Take(c, t, a[0]), a[1..], b);
    }
  }

  // ---- what the counter counts --------------------------------------------------------------------

  ghost predicate Counted(c: Config, t: Callers) {
    && Inv(c, t.state)
    && (t.state.circuit == HalfOpen ==> t.trials == t.state.inFlight + t.late)
    && (t.state.circuit != HalfOpen ==> t.trials == 0 && t.late == 0)
    && (c.maxHalfOpen == 0 ==> t.trials <= 1)
    && (c.successThreshold <= 1 ==> t.late == 0)
  }

  lemma StepCounts(c: Config, t: Callers, a: Act)
    requires Counted(c, t) && Allowed(t, a)
    ensures Counted(c, Take(c, t, a))
  {}

  /** Over every run in which each admitted call is reported on at most once, the trials under way are the
      counted ones plus the late successes still counted against one of them. */
  lemma {:induction false} TrialsUnderWay(c: Config, t: Callers, acts: seq<Act>)
    requires Counted(c, t) && Possible(c, t, acts)
    ensures Counted(c, TakeAll(c, t, acts))
    decreases |acts|
  {
    if acts != [] {
      StepCounts(c, t, acts[0]);
      TrialsUnderWay(c, Take(c, t, acts[0]), acts[1..]);
    }
  }

  lemma NobodyIsCounted(c: Config)
    ensures Counted(c, NOBODY)
  {}

  /** From the start: in a half-open period the trials under way are the counted ones plus the late successes, and
      otherwise there are none. */
  lemma EveryRunCounts(c: Config, acts: seq<Act>)
    requires Possible(c, NOBODY, acts)
    ensures Counted(c, TakeAll(c, NOBODY, acts))
    ensures var t := TakeAll(c, NOBODY, acts);
            t.trials == if t.state.circuit == HalfOpen then t.state.inFlight + t.late else 0
  {
    NobodyIsCounted(c);
    TrialsUnderWay(c, NOBODY, acts);
  }

  /** Over every run from the start: a closed breaker admits every call, an open one exactly when the timeout has
      passed since the last failed report, and a half-open one exactly while the trials under way, less the late
      successes counted against them, are fewer than the limit. */
  lemma AdmitsExactly(c: Config, acts: seq<Act>, now: real)
    requires Possible(c, NOBODY, acts)
    ensures var t := TakeAll(c, NOBODY, acts);
            Asked(c, t.state, now).1 <==>
              || t.state.circuit == Closed
              || (t.state.circuit == Open && IsCool(c, ToEvents(acts), now))
              || (t.state.circuit == HalfOpen && t.trials - t.late < c.maxHalfOpen)
  {
    EveryRunCounts(c, acts);
    CallersRun(c, NOBODY, acts);
    RunRemembers(c, ToEvents(acts));
  }

  // ---- when the limit holds for the calls themselves ---------------------------------------------

  function Entries(nows: seq<real>): seq<Act> {
    if nows == [] then [] else [Enter(nows[0])] + Entries(nows[1..])
  }

  function Filled(c: Config, inFlight: nat, n: nat): nat {
    if inFlight + n <= c.maxHalfOpen then inFlight + n
    else if inFlight <= c.maxHalfOpen then c.maxHalfOpen
    else inFlight
  }

  lemma {:induction false} EntriesFill(c: Config, t: Callers, nows: seq<real>)
    requires t.state.circuit == HalfOpen && t.trials == t.state.inFlight + t.late
    ensures var u := TakeAll(c, t, Entries(nows)); u.trials == Filled(c, t.state.inFlight, |nows|) + t.late
    ensures Possible(c, t, Entries(nows))
    decreases |nows|
  {
    if nows != [] {
      assert ([Enter(nows[0])] + Entries(nows[1..]))[1..] == Entries(nows[1..]);
      EntriesFill(c, Take(c, t, Enter(nows[0])), nows[1..]);
    }
  }

  /** However many more calls are admitted, the trials under way stay within the limit. */
  ghost predicate StaysWithin(c: Config, t: Callers) {
    forall nows :: TakeAll(c, t, Entries(nows)).trials <= TrialLimit(c)
  }

  function Zeros(n: nat): (s: seq<real>)
    ensures |s| == n
  {
    seq(n, _ => 0.0)
  }

  /** In a half-open period the limit holds for the calls themselves, whatever is admitted from here on,
      exactly if no late success is still counted against a trial under way (or only one trial is ever let in). */
  lemma LimitHoldsIff(c: Config, t: Callers)
    requires Counted(c, t) && t.state.circuit == HalfOpen
    ensures StaysWithin(c, t) <==> t.late == 0 || c.maxHalfOpen == 0
  {
    if t.late == 0 || c.maxHalfOpen == 0 {
      forall nows: seq<real>
        ensures TakeAll(c, t, Entries(nows)).trials <= TrialLimit(c)
      {
        EntriesFill(c, t, nows);
      }
    } else {
      var nows := Zeros(c.maxHalfOpen);
      EntriesFill(c, t, nows);
      assert TakeAll(c, t, Entries(nows)).trials > TrialLimit(c);
    }
  }

  // ---- a run that breaks the limit ----------------------------------------------------------------

  /** `n` calls that come and fail at time zero. */
  function Failures(n: nat): seq<Act> {
    if n == 0 then [] else [Enter(0.0), Leave(false, false, 0.0)] + Failures(n - 1)
  }

  lemma {:induction false} FailuresTrip(c: Config, t: Callers, n: nat)
    requires t.state.circuit == Closed && t.trials == 0 && 0 < n == Threshold(c) - t.state.failures
    ensures TakeAll(c, t, Failures(n)) == Callers(Tripped(0.0), 0, t.older, 0) && Possible(c, t, Failures(n))
    decreases n
  {
    var acts := Failures(n);
    var u := Take(c, t, acts[0]);
    var v := Take(c, u, acts[1]);
    assert acts[1..][1..] == Failures(n - 1) && acts[1..][0] == acts[1];
    assert TakeAll(c, t, acts) == TakeAll(c, u, acts[1..]) == TakeAll(c, v, Failures(n - 1));
    assert u == Callers(t.state, 0, t.older + 1, 0);
    if n > 1 { FailuresTrip(c, v, n - 1); }
  }

  /** One call stays out; others fail until the breaker opens; after the timeout a trial goes in, the first call
      succeeds late, and more trials are let in than the limit allows. */
  function TooMany(c: Config): seq<Act> {
    [Enter(0.0)] + Failures(Threshold(c)) + [Enter(c.timeout), Leave(false, true, c.timeout)]
    + Entries(seq(c.maxHalfOpen, _ => c.timeout))
  }

  lemma LateSuccess(c: Config, t: Callers)
    requires t == Callers(Tripped(0.0), 0, 1, 0) && c.successThreshold >= 2
    ensures var acts := [Enter(c.timeout), Leave(false, true, c.timeout)];
            && Possible(c, t, acts)
            && TakeAll(c, t, acts) == Callers(State(HalfOpen, 0, 1, 0, Some(0.0)), 1, 0, 1)
  {
    var acts := [Enter(c.timeout), Leave(false, true, c.timeout)];
    var u := Take(c, t, acts[0]);
    assert u == Callers(State(HalfOpen, 0, 0, 1, Some(0.0)), 1, 1, 0);
    assert acts[1..] == [acts[1]] && acts[1..][1..] == [];
    assert TakeAll(c, t, acts) == TakeAll(c, u, acts[1..]) == TakeAll(c, Take(c, u, acts[1]), []);
    assert Possible(c, u, acts[1..]);
  }

  /** A real run from the start that has one trial too many. */
  lemma LateReportAdmitsTooMany(c: Config)
    requires c.maxHalfOpen >= 1 && c.successThreshold >= 2
    ensures Possible(c, NOBODY, TooMany(c)) && TakeAll(c, NOBODY, TooMany(c)).trials == TrialLimit(c) + 1
  {
    var first, fails := [Enter(0.0)], Failures(Threshold(c));
    var late, more := [Enter(c.timeout), Leave(false, true, c.timeout)], seq(c.maxHalfOpen, _ => c.timeout);
    var one := Take(c, NOBODY, Enter(0.0));
    assert first[1..] == [] && TakeAll(c, NOBODY, first) == one == Callers(START, 0, 1, 0);
    FailuresTrip(c, one, Threshold(c));
    LateSuccess(c, Callers(Tripped(0.0), 0, 1, 0));
    var half := Callers(State(HalfOpen, 0, 1, 0, Some(0.0)), 1, 0, 1);
    EntriesFill(c, half, more);
    TakeConcat(c, NOBODY, first, fails);
    TakeConcat(c, NOBODY, first + fails, late);
    TakeConcat(c, NOBODY, first + fails + late, Entries(more));
  }

  // ---- the run takes place in time ----------------------------------------------------------------

  lemma {:induction false} InOrderConcat(since: real, a: seq<Act>, b: seq<Act>, mid: real)
    requires InOrder(since, a) && InOrder(mid, b) && since <= mid && forall i :: 0 <= i < |a| ==> a[i].now <= mid
    ensures InOrder(since, a + b)
    decreases |a|
  {
    if a == [] {
      assert a + b == b;
    } else {
      assert (a + b)[0] == a[0] && (a + b)[1..] == a[1..] + b;
      InOrderConcat(a[0].now, a[1..], b, mid);
    }
  }

  lemma {:induction false} AllAt(acts: seq<Act>, now: real)
    requires forall i :: 0 <= i < |acts| ==> acts[i].now == now
    ensures InOrder(now, acts)
    decreases |acts|
  {
    if acts != [] { AllAt(acts[1..], now); }
  }

  lemma {:induction false} FailuresAtZero(n: nat)
    ensures forall i :: 0 <= i < |Failures(n)| ==> Failures(n)[i].now == 0.0
  {
    if n > 0 { FailuresAtZero(n - 1); }
  }

  lemma {:induction false} EntriesAt(nows: seq<real>, now: real)
    requires forall i :: 0 <= i < |nows| ==> nows[i] == now
    ensures forall i :: 0 <= i < |Entries(nows)| ==> Entries(nows)[i].now == now
  {
    if nows != [] { EntriesAt(nows[1..], now); }
  }

  lemma TooManyInOrder(c: Config)
    requires c.timeout >= 0.0
    ensures InOrder(0.0, TooMany(c))
  {
    var before := [Enter(0.0)] + Failures(Threshold(c));
    var more := seq(c.maxHalfOpen, _ => c.timeout);
    var late := [Enter(c.timeout), Leave(false, true, c.timeout)];
    FailuresAtZero(Threshold(c));
    EntriesAt(more, c.timeout);
    AllAt(before, 0.0);
    AllAt(late + Entries(more), c.timeout);
    InOrderConcat(0.0, before, late + Entries(more), c.timeout);
    assert before + (late + Entries(more)) == TooMany(c);
  }

  // ---- which settings keep the promise ------------------------------------------------------------

  ghost predicate BreaksLimit(c: Config, acts: seq<Act>) {
    Possible(c, NOBODY, acts) && InOrder(0.0, acts) && TakeAll(c, NOBODY, acts).trials > TrialLimit(c)
  }

  /** Some run from the start, in time order and with each admitted call reported on at most once, breaks the
      limit on concurrent trials exactly for settings that allow a trial and need at least two successes. */
  lemma LimitBrokenIff(c: Config)
    requires c.timeout >= 0.0
    ensures (exists acts :: BreaksLimit(c, acts)) <==> c.maxHalfOpen >= 1 && c.successThreshold >= 2
  {
    if c.maxHalfOpen >= 1 && c.successThreshold >= 2 {
      LateReportAdmitsTooMany(c);
      TooManyInOrder(c);
      assert BreaksLimit(c, TooMany(c));
    } else {
      forall acts | Possible(c, NOBODY, acts)
        ensures !BreaksLimit(c, acts)
      {
        EveryRunCounts(c, acts);
      }
    }
  }
}
