/** The three-state circuit breaker of `clients/breaker.rs`. Times are any real clock that does not go back. */
module CircuitBreaker {
  import opened Wrappers

  datatype Circuit = Closed | Open | HalfOpen

  datatype Config = Config(failureThreshold: nat, successThreshold: nat, maxHalfOpen: nat, timeout: real)

  datatype State = State(circuit: Circuit, failures: nat, successes: nat, inFlight: nat, openedAt: Option<real>)

  const START := State(Closed, 0, 0, 0, None)

  datatype Event = Ask(now: real) | Report(success: bool, now: real)

  function Tripped(now: real): State {
    State(Open, 0, 0, 0, Some(now))
  }

  function Asked(c: Config, s: State, now: real): (State, bool) {
    match s.circuit
    case Closed => (s, true)
    case Open =>
      var elapsed := if s.openedAt.Some? then now - s.openedAt.value else 0.0;
      if elapsed >= c.timeout then (s.(circuit := HalfOpen, successes := 0, inFlight := 1), true) else (s, false)
    case HalfOpen =>
      if s.inFlight < c.maxHalfOpen then (s.(inFlight := s.inFlight + 1), true) else (s, false)
  }

  function Reported(c: Config, s: State, success: bool, now: real): State {
    match s.circuit
    case Closed =>
      if success then s.(failures := 0)
      else if s.failures + 1 >= c.failureThreshold then Tripped(now)
      else s.(failures := s.failures + 1)
    case HalfOpen =>
      if !success then Tripped(now) else
        var left := if s.inFlight == 0 then 0 else s.inFlight - 1;
        if s.successes + 1 >= c.successThreshold then State(Closed, 0, 0, left, None)
        else s.(inFlight := left, successes := s.successes + 1)
    case Open => if success then s else s.(openedAt := Some(now))
  }

  function Step(c: Config, s: State, e: Event): State {
    match e
    case Ask(now) => Asked(c, s, now).0
    case Report(success, now) => Reported(c, s, success, now)
  }

  function Run(c: Config, s: State, es: seq<Event>): State
    decreases |es|
  {
    if es == [] then s else Run(c, Step(c, s, es[0]), es[1..])
  }

  lemma {:induction false} RunConcat(c: Config, s: State, a: seq<Event>, b: seq<Event>)
    ensures Run(c, s, a + b) == Run(c, Run(c, s, a), b)
    decreases |a|
  {
    if a == [] {
      assert a + b == b;
    } else {
      assert (a + b)[0] == a[0] && (a + b)[1..] == a[1..] + b;
      RunConcat(c, Step(c, s, a[0]), a[1..], b);
    }
  }

  // ---- tripping -----------------------------------------------------------------------------------

  /** How many reports at the end of the events failed without a success between them. */
  function TrailingFailures(es: seq<Event>): nat {
    if es == [] then 0 else
      var last, before := es[|es| - 1], es[..|es| - 1];
      if last.Ask? then TrailingFailures(before) else if last.success then 0 else TrailingFailures(before) + 1
  }

  function Threshold(c: Config): nat {
    if c.failureThreshold == 0 then 1 else c.failureThreshold
  }

  /** When the last failed report came. */
  function LastFailure(es: seq<Event>): Option<real> {
    if es == [] then None else
      var last := es[|es| - 1];
      if last.Report? && !last.success then Some(last.now) else LastFailure(es[..|es| - 1])
  }

  lemma RunAppend(c: Config, s: State, es: seq<Event>, e: Event)
    ensures Run(c, s, es + [e]) == Step(c, Run(c, s, es), e)
    ensures (es + [e])[|es|] == e && (es + [e])[..|es|] == es
  {
    RunConcat(c, s, es, [e]);
    var mid := Run(c, s, es);
    assert [e][1..] == [] && Run(c, mid, [e]) == Run(c, Step(c, mid, e), []);
  }

  /** Over every run from the start, a closed breaker has counted exactly the failures in a row, and an open
      one remembers exactly the last failed report. */
  lemma {:induction false} RunRemembers(c: Config, es: seq<Event>)
    ensures var s := Run(c, START, es);
            && (s.circuit == Closed ==> s.failures == TrailingFailures(es) < Threshold(c))
            && (s.circuit == Open ==> s.openedAt.Some? && s.openedAt == LastFailure(es))
    decreases |es|
  {
    if es != [] {
      var n := |es| - 1;
      var before, last := es[..n], es[n];
      assert es == before + [last];
      RunRemembers(c, before);
      RunAppend(c, START, before, last);
    }
  }

  /** Over every run from the start, one more event opens a closed breaker exactly if it is a failed report
      that makes the failures in a row reach the threshold, taken as at least one; nothing else moves it. */
  lemma TripsExactly(c: Config, es: seq<Event>, e: Event)
    requires Run(c, START, es).circuit == Closed
    ensures Run(c, START, es + [e]).circuit == if TrailingFailures(es + [e]) >= Threshold(c) then Open else Closed
    ensures TrailingFailures(es + [e]) >= Threshold(c) ==>
            e.Report? && !e.success && Run(c, START, es + [e]) == Tripped(e.now)
  {
    RunRemembers(c, es);
    RunAppend(c, START, es, e);
  }

  // ---- the cooldown ---------------------------------------------------------------------------------

  /** Over every run from the start, an open breaker admits a call exactly if the timeout has passed since the
      last failed report, the one that tripped it or a later one; that call is the only trial. */
  lemma CooldownHolds(c: Config, es: seq<Event>, now: real)
    requires Run(c, START, es).circuit == Open
    ensures LastFailure(es).Some?
    ensures Asked(c, Run(c, START, es), now).1 <==> now - LastFailure(es).value >= c.timeout
    ensures var next := Run(c, START, es + [Ask(now)]);
            if now - LastFailure(es).value >= c.timeout then next.circuit == HalfOpen && next.inFlight == 1
            else next == Run(c, START, es)
  {
    RunRemembers(c, es);
    RunAppend(c, START, es, Ask(now));
  }

  // ---- the half-open period ---------------------------------------------------------------------------

  /** How many reports have succeeded since a call was let through on trial, if one has been since the last failed
      report: the first question at least the timeout after that report. */
  function SuccessesOnTrial(c: Config, es: seq<Event>): Option<nat> {
    if es == [] then None else
      var last, before := es[|es| - 1], es[..|es| - 1];
      var so := SuccessesOnTrial(c, before);
      if last.Report? && !last.success then None
      else if so.Some? then Some(so.value + if last.Report? then 1 else 0)
      else if last.Ask? && IsCool(c, before, last.now) then Some(0)
      else None
  }

  /** The timeout has passed since the last failed report. */
  predicate IsCool(c: Config, es: seq<Event>, now: real) {
    LastFailure(es).Some? && now - LastFailure(es).value >= c.timeout
  }

  function SuccessesNeeded(c: Config): nat {
    if c.successThreshold == 0 then 1 else c.successThreshold
  }

  /** Over every run from the start, a half-open breaker has counted exactly the successes since its period began,
      fewer than it needs, and an open one is in no such period. */
  lemma {:induction false} RunCountsSuccesses(c: Config, es: seq<Event>)
    ensures var s := Run(c, START, es);
            && (s.circuit == HalfOpen ==>
                  SuccessesOnTrial(c, es) == Some(s.successes) && s.successes < SuccessesNeeded(c))
            && (s.circuit == Open ==> SuccessesOnTrial(c, es) == None)
    decreases |es|
  {
    if es != [] {
      var n := |es| - 1;
      var before, last := es[..n], es[n];
      assert es == before + [last];
      RunCountsSuccesses(c, before);
      RunRemembers(c, before);
      RunAppend(c, START, before, last);
    }
  }

  /** Over every run from the start, counters are at zero outside the period they count for, and only a breaker that
      has opened remembers when. */
  lemma {:induction false} CountersReset(c: Config, es: seq<Event>)
    ensures var s := Run(c, START, es);
            && (s.circuit == Open ==> s.failures == s.successes == s.inFlight == 0)
            && (s.circuit == HalfOpen ==> s.failures == 0 && s.openedAt.Some?)
            && (s.circuit == Closed ==> s.successes == 0 && s.openedAt.None?)
    decreases |es|
  {
    if es != [] {
      var n := |es| - 1;
      assert es == es[..n] + [es[n]];
      CountersReset(c, es[..n]);
      RunRemembers(c, es[..n]);
      RunAppend(c, START, es[..n], es[n]);
    }
  }

  /** Where one more event leads, told from the events alone. */
  function Leads(c: Config, from: Circuit, es: seq<Event>, e: Event): Circuit {
    match from
    case Closed => if TrailingFailures(es + [e]) >= Threshold(c) then Open else Closed
    case Open => if e.Ask? && IsCool(c, es, e.now) then HalfOpen else Open
    case HalfOpen =>
      if e.Report? && !e.success then Open
      else if SuccessesOnTrial(c, es + [e]) == Some(SuccessesNeeded(c)) then Closed
      else HalfOpen
  }

  /** Over every run from the start: a closed breaker opens exactly when the failures in a row reach the threshold, an
      open one is half-open exactly after a question past the timeout, and a half-open one opens exactly at a failed
      report and closes exactly at the success that makes those of its period as many as are needed. */
  lemma NextCircuit(c: Config, es: seq<Event>, e: Event)
    ensures Run(c, START, es + [e]).circuit == Leads(c, Run(c, START, es).circuit, es, e)
  {
    RunRemembers(c, es);
    RunCountsSuccesses(c, es);
    RunAppend(c, START, es, e);
  }

  // ---- trials -----------------------------------------------------------------------------------------

  function TrialLimit(c: Config): nat {
    if c.maxHalfOpen == 0 then 1 else c.maxHalfOpen
  }

  predicate Inv(c: Config, s: State) {
    && (s.circuit == Open ==> s.openedAt.Some?)
    && (s.circuit == Closed ==> s.failures < Threshold(c))
    && s.inFlight <= TrialLimit(c)
    && (s.circuit == HalfOpen ==> s.successes < if c.successThreshold == 0 then 1 else c.successThreshold)
  }

  /** Over every run the trial counter stays within the limit, taken as at least one, and the failure and
      success counters below their thresholds. */
  lemma {:induction false} CountersBounded(c: Config, s: State, es: seq<Event>)
    requires Inv(c, s)
    ensures Inv(c, Run(c, s, es))
    decreases |es|
  {
    if es != [] { CountersBounded(c, Step(c, s, es[0]), es[1..]); }
  }

  // ---- the object -----------------------------------------------------------------------------------------

  class Breaker {
    const config: Config
    var circuit: Circuit
    var failures: nat
    var successes: nat
    var inFlight: nat
    var openedAt: Option<real>

    function Value(): State
      reads this
    {
      State(circuit, failures, successes, inFlight, openedAt)
    }

    constructor (config: Config)
      ensures this.config == config && Value() == START && Inv(config, Value())
    {
      this.config := config;
      circuit, failures, successes, inFlight, openedAt := Closed, 0, 0, 0, None;
    }

    method CanExecute(now: real) returns (ok: bool)
      requires Inv(config, Value())
      modifies this
      ensures (Value(), ok) == Asked(config, old(Value()), now)
      ensures Inv(config, Value())
    {
      match circuit {
        case Closed => ok := true;
        case Open =>
          var elapsed := if openedAt.Some? then now - openedAt.value else 0.0;
          ok := elapsed >= config.timeout;
          if ok { circuit, successes, inFlight := HalfOpen, 0, 1; }
        case HalfOpen =>
          ok := inFlight < config.maxHalfOpen;
          if ok { inFlight := inFlight + 1; }
      }
    }

    method Trip(now: real)
      modifies this
      ensures Value() == Tripped(now)
    {
      circuit, openedAt, failures, successes, inFlight := Open, Some(now), 0, 0, 0;
    }

    method OnExecution(success: bool, now: real)
      requires Inv(config, Value())
      modifies this
      ensures Value() == Reported(config, old(Value()), success, now)
      ensures Inv(config, Value())
    {
      match circuit {
        case Closed =>
          if success {
            failures := 0;
          } else {
            failures := failures + 1;
            if failures >= config.failureThreshold { Trip(now); }
          }
        case HalfOpen =>
          inFlight := if inFlight == 0 then 0 else inFlight - 1;
          if success {
            successes := successes + 1;
            if successes >= config.successThreshold {
              circuit, failures, successes, openedAt := Closed, 0, 0, None;
            }
          } else {
            Trip(now);
          }
        case Open =>
          if !success { openedAt := Some(now); }
      }
    }
  }
}
