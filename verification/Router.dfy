/** Fallback over the candidates of a route (`genai/router/default_router.rs`) with retries (`clients/retry.rs`)
    and a circuit breaker for each model. */
module Router {
  import opened Wrappers
  import opened Seqs
  import opened CircuitBreaker

  datatype Answer = Done(response: nat) | Failed(error: nat, retryable: bool)

  predicate Transient(a: Answer) {
    a.Failed? && a.retryable
  }

  // ---- retrying -------------------------------------------------------------------------------------

  /** The answer that ends the retrying, and the number of the call that gave it. */
  function Retried(answer: nat -> Answer, max: nat, k: nat): nat
    requires k <= max
    decreases max - k
  {
    if Transient(answer(k)) && k < max then Retried(answer, max, k + 1) else k
  }

  /** Calls go on exactly while they fail in a way worth retrying, and never past `max` retries. */
  lemma {:induction false} RetriedMeans(answer: nat -> Answer, max: nat, k: nat)
    requires k <= max
    ensures var n := Retried(answer, max, k);
            && k <= n <= max
            && (forall j :: k <= j < n ==> Transient(answer(j)))
            && (n == max || !Transient(answer(n)))
    decreases max - k
  {
    if Transient(answer(k)) && k < max { RetriedMeans(answer, max, k + 1); }
  }

  method Retry(answer: nat -> Answer, max: nat) returns (result: Answer, calls: nat)
    ensures calls == Retried(answer, max, 0) + 1 && result == answer(calls - 1)
  {
    var attempt := 0;
    while true
      invariant attempt <= max && Retried(answer, max, attempt) == Retried(answer, max, 0)
      decreases max - attempt
    {
      result := answer(attempt);
      if result.Done? || attempt >= max || !result.retryable { return result, attempt + 1; }
      attempt := attempt + 1;
    }
  }

  // ---- the declarative account ------------------------------------------------------------------------

  datatype Candidate = Candidate(provider: string, model: string)

  datatype RouterError = DeadlineExceeded | GenAi(error: nat) | AllRoutesFailed(attempts: nat, last: nat) | NoRoute

  type Reply = Result<nat, RouterError>

  type Breakers = map<string, State>

  /** What is fixed during a call: registered providers, retry limit, breaker settings, deadline. */
  datatype Setup = Setup(providers: set<string>, maxRetries: Option<nat>, breaker: Option<Config>,
                         deadline: Option<real>)

  /** What the world does: the answers to the calls for the i-th candidate; when it is looked at; when its
      calls are over; and whether the deadline cuts them short, after how many. */
  datatype World = World(answer: nat -> nat -> Answer, looked: nat -> real, over: nat -> real, cut: nat -> Option<nat>)

  datatype Tried = Finished(calls: nat, answer: Answer) | TimedOut(calls: nat)

  datatype Visit = Unregistered | Refused | Dispatched(tried: Tried)

  function Key(c: Candidate): string {
    c.provider + ['/'] + c.model
  }

  /** Candidates have the same breaker exactly if they are the same, as far as providers have no "/" in their names. */
  lemma KeysTellApart(c: Candidate, d: Candidate)
    requires '/' !in c.provider && '/' !in d.provider
    ensures Key(c) == Key(d) <==> c == d
  {
    if Key(c) == Key(d) {
      FirstSlash(c.provider, c.model, |c.provider|);
      FirstSlash(d.provider, d.model, |d.provider|);
      var m, n, k := |c.provider|, |d.provider|, Key(c);
      assert k[m] == '/' && k[n] == '/';
      assert m == n;
      assert c.provider == k[..m] && c.model == k[m + 1..];
      assert d.provider == Key(d)[..n] && d.model == Key(d)[n + 1..];
    }
  }

  lemma FirstSlash(p: string, model: string, n: nat)
    requires '/' !in p && n == |p|
    ensures (p + ['/'] + model)[n] == '/' && forall i :: 0 <= i < n ==> (p + ['/'] + model)[i] != '/'
  {
    forall i | 0 <= i < n
      ensures (p + ['/'] + model)[i] != '/'
    {
      assert (p + ['/'] + model)[i] == p[i] && p[i] in p;
    }
  }

  /** With a "/" in a provider two candidates can share a breaker. */
  lemma KeysCanClash(a: string, b: string, c: string)
    ensures var x, y := Candidate(a, b + ['/'] + c), Candidate(a + ['/'] + b, c); Key(x) == Key(y) && x != y
  {
    Assoc(a + ['/'], b, ['/'] + c);
    Assoc(b, ['/'], c);
    Assoc(a + ['/'] + b, ['/'], c);
    assert |a| != |a + ['/'] + b|;
  }

  function BreakerOf(b: Breakers, key: string): State {
    if key in b then b[key] else START
  }

  function Max(s: Setup): nat {
    if s.maxRetries.Some? then s.maxRetries.value else 0
  }

  /** The calls for candidate `i`: retried to the end, or cut off by the deadline. */
  function Try(s: Setup, w: World, i: nat): Tried {
    var n := Retried(w.answer(i), Max(s), 0);
    if s.deadline.Some? && w.cut(i).Some? then TimedOut(if w.cut(i).value <= n then w.cut(i).value else n + 1)
    else Finished(n + 1, w.answer(i)(n))
  }

  function Admits(s: Setup, b: Breakers, key: string, now: real): bool {
    s.breaker.None? || Asked(s.breaker.value, BreakerOf(b, key), now).1
  }

  /** What happens to a candidate when it is its turn. */
  function VisitOf(s: Setup, w: World, b: Breakers, c: Candidate, i: nat): Visit {
    if c.provider !in s.providers then Unregistered
    else if !Admits(s, b, Key(c), w.looked(i)) then Refused
    else Dispatched(Try(s, w, i))
  }

  predicate Succeeded(v: Visit) {
    v.Dispatched? && v.tried.Finished? && v.tried.answer.Done?
  }

  /** What the candidate's breaker hears: one question, and one report exactly if it admitted the call. */
  function Hears(w: World, v: Visit, i: nat): seq<Event> {
    match v
    case Unregistered => []
    case Refused => [Ask(w.looked(i))]
    case Dispatched(_) => [Ask(w.looked(i)), Report(Succeeded(v), w.over(i))]
  }

  function AfterVisit(s: Setup, w: World, b: Breakers, c: Candidate, v: Visit, i: nat): Breakers {
    if s.breaker.None? || v.Unregistered? then b
    else b[Key(c) := Run(s.breaker.value, BreakerOf(b, Key(c)), Hears(w, v, i))]
  }

  /** The breakers after the first `n` visits. */
  function BreakersAt(s: Setup, w: World, b: Breakers, route: seq<Candidate>, visits: seq<Visit>, n: nat): Breakers
    requires n <= |visits| <= |route|
  {
    if n == 0 then b
    else AfterVisit(s, w, BreakersAt(s, w, b, route, visits, n - 1), route[n - 1], visits[n - 1], n - 1)
  }

  /** Whether the next candidate gets its turn after this visit. */
  predicate GoesOn(v: Visit) {
    v.Dispatched? ==> v.tried.Finished? && Transient(v.tried.answer)
  }

  predicate Late(s: Setup, w: World, i: nat) {
    s.deadline.Some? && w.looked(i) >= s.deadline.value
  }

  predicate VisitAt(s: Setup, w: World, b: Breakers, route: seq<Candidate>, visits: seq<Visit>, i: nat)
    requires i < |visits| <= |route|
  {
    visits[i] == VisitOf(s, w, BreakersAt(s, w, b, route, visits, i), route[i], i)
  }

  /** The visits are those of the first candidates, in order, each in time and each but the last going on. */
  predicate Journey(s: Setup, w: World, b: Breakers, route: seq<Candidate>, visits: seq<Visit>) {
    && |visits| <= |route|
    && (forall i :: 0 <= i < |visits| ==> VisitAt(s, w, b, route, visits, i))
    && (forall i :: 0 <= i < |visits| ==> !Late(s, w, i))
    && (forall i :: 0 <= i < |visits| - 1 ==> GoesOn(visits[i]))
  }

  function Attempts(visits: seq<Visit>): nat {
    if visits == [] then 0
    else Attempts(visits[..|visits| - 1]) + if visits[|visits| - 1].Dispatched? then 1 else 0
  }

  /** The last failed answer, if any. */
  function LastError(visits: seq<Visit>): Option<nat> {
    if visits == [] then None else
      var e := ErrorOf(visits[|visits| - 1]);
      if e.Some? then e else LastError(visits[..|visits| - 1])
  }

  function ErrorOf(v: Visit): Option<nat> {
    if v.Dispatched? && v.tried.Finished? && v.tried.answer.Failed? then Some(v.tried.answer.error) else None
  }

  /** The reply of a visit that settles it. */
  function LastReply(v: Visit): Reply
    requires !GoesOn(v)
  {
    if v.tried.TimedOut? then Err(DeadlineExceeded)
    else if v.tried.answer.Done? then Ok(v.tried.answer.response)
    else Err(GenAi(v.tried.answer.error))
  }

  function EndOfRoute(visits: seq<Visit>): Reply {
    match LastError(visits)
    case Some(e) => Err(AllRoutesFailed(Attempts(visits), e))
    case None => Err(NoRoute)
  }

  /** What the visits amount to. */
  function ReplyOf(route: seq<Candidate>, visits: seq<Visit>): Reply {
    if visits != [] && !GoesOn(visits[|visits| - 1]) then LastReply(visits[|visits| - 1])
    else if |visits| < |route| then Err(DeadlineExceeded)
    else EndOfRoute(visits)
  }

  /** The journey ends for a reason: its last visit settled it, the deadline passed, or the route is done. */
  predicate Complete(s: Setup, w: World, route: seq<Candidate>, visits: seq<Visit>) {
    || (visits != [] && !GoesOn(visits[|visits| - 1]))
    || |visits| == |route|
    || (|visits| < |route| && Late(s, w, |visits|))
  }

  // ---- what follows for every route, script and breaker state --------------------------------------------

  lemma SameVisit(s: Setup, w: World, b: Breakers, c: Candidate, i: nat, x: Visit, y: Visit)
    requires x == VisitOf(s, w, b, c, i) && y == VisitOf(s, w, b, c, i)
    ensures x == y && AfterVisit(s, w, b, c, x, i) == AfterVisit(s, w, b, c, y, i)
  {}

  lemma {:induction false} SamePrefix(s: Setup, w: World, b: Breakers, route: seq<Candidate>, u: seq<Visit>,
                                      v: seq<Visit>, n: nat)
    requires Journey(s, w, b, route, u) && Journey(s, w, b, route, v) && n <= |u| && n <= |v|
    ensures forall i :: 0 <= i < n ==> u[i] == v[i]
    ensures BreakersAt(s, w, b, route, u, n) == BreakersAt(s, w, b, route, v, n)
    decreases n
  {
    if n > 0 {
      SamePrefix(s, w, b, route, u, v, n - 1);
      assert VisitAt(s, w, b, route, u, n - 1) && VisitAt(s, w, b, route, v, n - 1);
      SameVisit(s, w, BreakersAt(s, w, b, route, u, n - 1), route[n - 1], n - 1, u[n - 1], v[n - 1]);
    }
  }

  /** A journey that another one continues was not complete. */
  lemma Continued(s: Setup, w: World, b: Breakers, route: seq<Candidate>, u: seq<Visit>, v: seq<Visit>)
    requires Journey(s, w, b, route, u) && Journey(s, w, b, route, v) && |u| < |v|
    ensures !Complete(s, w, route, u)
  {
    SamePrefix(s, w, b, route, u, v, |u|);
    assert !Late(s, w, |u|);
    assert u != [] ==> GoesOn(v[|u| - 1]);
  }

  /** The rules leave one journey only: order, skips, stops and breaker states are all determined. */
  lemma OneJourney(s: Setup, w: World, b: Breakers, route: seq<Candidate>, u: seq<Visit>, v: seq<Visit>)
    requires Journey(s, w, b, route, u) && Complete(s, w, route, u)
    requires Journey(s, w, b, route, v) && Complete(s, w, route, v)
    ensures u == v
  {
    if |u| < |v| { Continued(s, w, b, route, u, v); }
    if |v| < |u| { Continued(s, w, b, route, v, u); }
    SamePrefix(s, w, b, route, u, v, |u|);
  }

  predicate IsLesser(n: nat, a: nat, b: Option<nat>) {
    b.Some? && n <= a && n <= b.value && (n == a || n == b.value)
  }

  /** Each candidate gets at most max_retries + 1 calls, and only one that succeeds or is cut off ends in other
      than a failure. */
  lemma CallsAreBounded(s: Setup, w: World, b: Breakers, route: seq<Candidate>, visits: seq<Visit>, i: nat)
    requires Journey(s, w, b, route, visits) && i < |visits| && visits[i].Dispatched?
    ensures visits[i].tried.calls <= if s.maxRetries.None? then 1 else s.maxRetries.value + 1
    ensures var t := visits[i].tried; t.Finished? ==> t.calls >= 1 && t.answer == w.answer(i)(t.calls - 1)
    ensures var t, wanted := visits[i].tried, Retried(w.answer(i), Max(s), 0) + 1;
            if t.Finished? then t.calls == wanted else IsLesser(t.calls, wanted, w.cut(i))
  {
    assert VisitAt(s, w, b, route, visits, i);
    RetriedMeans(w.answer(i), Max(s), 0);
  }

  /** The breakers when candidate `n` gets its turn, if every candidate before it has had one. */
  function StateAt(s: Setup, w: World, b: Breakers, route: seq<Candidate>, n: nat): Breakers
    requires n <= |route|
  {
    if n == 0 then b else
      var before := StateAt(s, w, b, route, n - 1);
      AfterVisit(s, w, before, route[n - 1], VisitOf(s, w, before, route[n - 1], n - 1), n - 1)
  }

  /** There is time left when candidate `i` is looked at. */
  predicate InTime(s: Setup, w: World, i: nat) {
    s.deadline.None? || w.looked(i) < s.deadline.value
  }

  /** Candidate `i` has a provider and a breaker that admits it. */
  predicate IsAttempted(s: Setup, w: World, b: Breakers, route: seq<Candidate>, i: nat)
    requires i < |route|
  {
    route[i].provider in s.providers && Admits(s, StateAt(s, w, b, route, i), Key(route[i]), w.looked(i))
  }

  /** The answer of the last call for candidate `i`, if the deadline does not cut its calls short. */
  function FinalAnswer(s: Setup, w: World, i: nat): Option<Answer> {
    if s.deadline.Some? && w.cut(i).Some? then None else Some(w.answer(i)(Retried(w.answer(i), Max(s), 0)))
  }

  /** In time, candidate `i` is passed over: it has no provider, its breaker refuses, or its last call fails in a
      way that allows a fallback and the deadline does not cut it short. */
  predicate PassedOver(s: Setup, w: World, b: Breakers, route: seq<Candidate>, i: nat)
    requires i < |route|
  {
    && InTime(s, w, i)
    && (IsAttempted(s, w, b, route, i) ==>
          FinalAnswer(s, w, i).Some? && FinalAnswer(s, w, i).value.Failed? && FinalAnswer(s, w, i).value.retryable)
  }

  /** In time, candidate `n` has a provider and an admitting breaker, is not cut short, and its last call gives
      this response. */
  predicate Responds(s: Setup, w: World, b: Breakers, route: seq<Candidate>, n: nat, response: nat)
    requires n < |route|
  {
    InTime(s, w, n) && IsAttempted(s, w, b, route, n) && FinalAnswer(s, w, n) == Some(Done(response))
  }

  /** Candidate `n` gives this response and all before it are passed over. */
  predicate FirstToRespond(s: Setup, w: World, b: Breakers, route: seq<Candidate>, n: nat, response: nat) {
    n < |route| && Responds(s, w, b, route, n, response) && forall i :: 0 <= i < n ==> PassedOver(s, w, b, route, i)
  }

  lemma {:induction false} VisitsFollow(s: Setup, w: World, b: Breakers, route: seq<Candidate>, visits: seq<Visit>,
                                        n: nat)
    requires Journey(s, w, b, route, visits) && n <= |visits|
    ensures BreakersAt(s, w, b, route, visits, n) == StateAt(s, w, b, route, n)
    decreases n
  {
    if n > 0 {
      VisitsFollow(s, w, b, route, visits, n - 1);
      assert VisitAt(s, w, b, route, visits, n - 1);
    }
  }

  lemma VisitMeans(s: Setup, w: World, b: Breakers, route: seq<Candidate>, visits: seq<Visit>, i: nat)
    requires Journey(s, w, b, route, visits) && i < |visits|
    ensures GoesOn(visits[i]) <==> PassedOver(s, w, b, route, i)
    ensures forall response :: Succeeded(visits[i]) && visits[i].tried.answer.response == response <==>
            Responds(s, w, b, route, i, response)
  {
    VisitsFollow(s, w, b, route, visits, i);
    assert VisitAt(s, w, b, route, visits, i) && !Late(s, w, i);
  }

  /** Which candidate answers: the response is that of the first candidate that is not passed over, if it gives one. */
  lemma FirstSuccessWins(s: Setup, w: World, b: Breakers, route: seq<Candidate>, visits: seq<Visit>, response: nat)
    requires Journey(s, w, b, route, visits) && Complete(s, w, route, visits)
    ensures ReplyOf(route, visits) == Ok(response) <==>
            exists n :: FirstToRespond(s, w, b, route, n, response)
  {
    forall i | 0 <= i < |visits|
      ensures GoesOn(visits[i]) <==> PassedOver(s, w, b, route, i)
    {
      VisitMeans(s, w, b, route, visits, i);
    }
    var last := |visits| - 1;
    if ReplyOf(route, visits) == Ok(response) {
      VisitMeans(s, w, b, route, visits, last);
      assert FirstToRespond(s, w, b, route, last, response);
    }
    if n :| FirstToRespond(s, w, b, route, n, response) {
      AnswererIsLast(s, w, b, route, visits, n, response);
    }
  }

  lemma AnswererIsLast(s: Setup, w: World, b: Breakers, route: seq<Candidate>, visits: seq<Visit>, n: nat,
                       response: nat)
    requires Journey(s, w, b, route, visits) && Complete(s, w, route, visits)
    requires FirstToRespond(s, w, b, route, n, response)
    ensures ReplyOf(route, visits) == Ok(response)
  {
    if |visits| <= n {
      NotOver(s, w, b, route, visits, n);
    } else {
      VisitMeans(s, w, b, route, visits, n);
    }
  }

  /** A journey does not end before a candidate that is not late and has only candidates passed over ahead of it. */
  lemma NotOver(s: Setup, w: World, b: Breakers, route: seq<Candidate>, visits: seq<Visit>, n: nat)
    requires Journey(s, w, b, route, visits) && |visits| <= n < |route| && InTime(s, w, n)
    requires forall i :: 0 <= i < n ==> PassedOver(s, w, b, route, i)
    ensures !Complete(s, w, route, visits)
  {
    if visits != [] { VisitMeans(s, w, b, route, visits, |visits| - 1); }
    assert |visits| < n ==> PassedOver(s, w, b, route, |visits|);
  }

  lemma {:induction false} NoErrorNoAttempt(visits: seq<Visit>)
    requires forall i :: 0 <= i < |visits| ==> GoesOn(visits[i])
    ensures LastError(visits).None? <==> Attempts(visits) == 0
    ensures Attempts(visits) == 0 <==> forall i :: 0 <= i < |visits| ==> !visits[i].Dispatched?
  {
    if visits != [] { NoErrorNoAttempt(visits[..|visits| - 1]); }
  }

  /** No route means that no candidate was attempted: each had no provider, or a breaker that refused. */
  lemma NoRouteMeans(s: Setup, w: World, b: Breakers, route: seq<Candidate>, visits: seq<Visit>)
    requires Journey(s, w, b, route, visits) && Complete(s, w, route, visits)
    ensures ReplyOf(route, visits) == Err(NoRoute) <==>
            |visits| == |route| && forall i :: 0 <= i < |visits| ==> !visits[i].Dispatched?
  {
    if visits == [] || GoesOn(visits[|visits| - 1]) { NoErrorNoAttempt(visits); }
  }

  // ---- every reply -------------------------------------------------------------------------------------------

  /** Candidate `n` is the first that is not passed over. */
  predicate IsSettler(s: Setup, w: World, b: Breakers, route: seq<Candidate>, n: nat) {
    n < |route| && !PassedOver(s, w, b, route, n) && forall i :: 0 <= i < n ==> PassedOver(s, w, b, route, i)
  }

  /** What the first candidate that is not passed over makes of the call. */
  function Settlement(s: Setup, w: World, n: nat): Reply {
    var a := FinalAnswer(s, w, n);
    if !InTime(s, w, n) || a.None? then Err(DeadlineExceeded)
    else match a.value
      case Done(response) => Ok(response)
      case Failed(error, _) => Err(GenAi(error))
  }

  function FinalError(s: Setup, w: World, i: nat): Option<nat> {
    match FinalAnswer(s, w, i) case Some(Failed(error, _)) => Some(error) case _ => None
  }

  /** How many of the first `n` candidates were attempted, and the last error of those. */
  function Tally(s: Setup, w: World, b: Breakers, route: seq<Candidate>, n: nat): (nat, Option<nat>)
    requires n <= |route|
  {
    if n == 0 then (0, None) else
      var (count, last) := Tally(s, w, b, route, n - 1);
      if !IsAttempted(s, w, b, route, n - 1) then (count, last) else
        var error := FinalError(s, w, n - 1);
        (count + 1, if error.Some? then error else last)
  }

  lemma VisitSettles(s: Setup, w: World, b: Breakers, route: seq<Candidate>, visits: seq<Visit>, i: nat)
    requires Journey(s, w, b, route, visits) && i < |visits|
    ensures visits[i].Dispatched? <==> IsAttempted(s, w, b, route, i)
    ensures GoesOn(visits[i]) <==> PassedOver(s, w, b, route, i)
    ensures !GoesOn(visits[i]) ==> LastReply(visits[i]) == Settlement(s, w, i)
    ensures visits[i].Dispatched? ==> ErrorOf(visits[i]) == FinalError(s, w, i)
  {
    VisitsFollow(s, w, b, route, visits, i);
    assert VisitAt(s, w, b, route, visits, i) && !Late(s, w, i);
  }

  lemma {:induction false} TallyIs(s: Setup, w: World, b: Breakers, route: seq<Candidate>, visits: seq<Visit>, n: nat)
    requires Journey(s, w, b, route, visits) && n <= |visits|
    ensures Tally(s, w, b, route, n) == (Attempts(visits[..n]), LastError(visits[..n]))
    decreases n
  {
    if n > 0 {
      TallyIs(s, w, b, route, visits, n - 1);
      VisitSettles(s, w, b, route, visits, n - 1);
      assert visits[..n][..n - 1] == visits[..n - 1];
    }
  }

  /** Every reply, from route, script and breaker states: the first candidate that is not passed over settles it, by
      its response, its final error or the deadline; if there is none, the number of attempts and their last error
      are reported, or that there were none. */
  lemma ReplyMeans(s: Setup, w: World, b: Breakers, route: seq<Candidate>, visits: seq<Visit>)
    requires Journey(s, w, b, route, visits) && Complete(s, w, route, visits)
    ensures forall n :: IsSettler(s, w, b, route, n) ==> ReplyOf(route, visits) == Settlement(s, w, n)
    ensures (forall n :: !IsSettler(s, w, b, route, n)) ==>
            var (count, last) := Tally(s, w, b, route, |route|);
            ReplyOf(route, visits) ==
            if count == 0 then Err(NoRoute) else Err(AllRoutesFailed(count, if last.Some? then last.value else 0))
  {
    forall n | IsSettler(s, w, b, route, n)
      ensures ReplyOf(route, visits) == Settlement(s, w, n)
    {
      SettlerIsLast(s, w, b, route, visits, n);
    }
    if forall n :: !IsSettler(s, w, b, route, n) { AllPassedOver(s, w, b, route, visits); }
  }

  lemma SettlerIsLast(s: Setup, w: World, b: Breakers, route: seq<Candidate>, visits: seq<Visit>, n: nat)
    requires Journey(s, w, b, route, visits) && Complete(s, w, route, visits) && IsSettler(s, w, b, route, n)
    ensures ReplyOf(route, visits) == Settlement(s, w, n)
  {
    if n < |visits| {
      VisitSettles(s, w, b, route, visits, n);
    } else {
      if InTime(s, w, n) { NotOver(s, w, b, route, visits, n); }
      if visits != [] { VisitSettles(s, w, b, route, visits, |visits| - 1); }
    }
  }

  lemma {:induction false} NoSettler(s: Setup, w: World, b: Breakers, route: seq<Candidate>, n: nat)
    requires n <= |route| && forall k :: !IsSettler(s, w, b, route, k)
    ensures forall i :: 0 <= i < n ==> PassedOver(s, w, b, route, i)
    decreases n
  {
    if n > 0 {
      NoSettler(s, w, b, route, n - 1);
      assert !IsSettler(s, w, b, route, n - 1);
    }
  }

  lemma AllPassedOver(s: Setup, w: World, b: Breakers, route: seq<Candidate>, visits: seq<Visit>)
    requires Journey(s, w, b, route, visits) && Complete(s, w, route, visits)
    requires forall n :: !IsSettler(s, w, b, route, n)
    ensures var (count, last) := Tally(s, w, b, route, |route|);
            ReplyOf(route, visits) ==
            if count == 0 then Err(NoRoute) else Err(AllRoutesFailed(count, if last.Some? then last.value else 0))
  {
    NoSettler(s, w, b, route, |route|);
    if |visits| < |route| {
      assert PassedOver(s, w, b, route, |visits|);
      NotOver(s, w, b, route, visits, |visits|);
    } else {
      forall i | 0 <= i < |visits|
        ensures GoesOn(visits[i])
      {
        VisitSettles(s, w, b, route, visits, i);
      }
      TallyIs(s, w, b, route, visits, |visits|);
      assert visits[..|visits|] == visits;
      NoErrorNoAttempt(visits);
    }
  }

  // ---- the breakers ---------------------------------------------------------------------------------------

  /** Everything the breaker of a key hears in the first `n` visits. */
  function Heard(w: World, key: string, route: seq<Candidate>, visits: seq<Visit>, n: nat): seq<Event>
    requires n <= |visits| <= |route|
  {
    if n == 0 then []
    else Heard(w, key, route, visits, n - 1) + if Key(route[n - 1]) == key then Hears(w, visits[n - 1], n - 1) else []
  }

  /** Each breaker ends where its own questions and reports, in order, take it. */
  lemma {:induction false} BreakersHear(s: Setup, w: World, b: Breakers, route: seq<Candidate>, visits: seq<Visit>,
                                        n: nat, key: string)
    requires n <= |visits| <= |route| && s.breaker.Some?
    ensures BreakerOf(BreakersAt(s, w, b, route, visits, n), key) ==
            Run(s.breaker.value, BreakerOf(b, key), Heard(w, key, route, visits, n))
    decreases n
  {
    if n > 0 {
      BreakersHear(s, w, b, route, visits, n - 1, key);
      var before, more := Heard(w, key, route, visits, n - 1), Hears(w, visits[n - 1], n - 1);
      RunConcat(s.breaker.value, BreakerOf(b, key), before, more);
      assert before + [] == before;
    }
  }

  // ---- the log of what the breakers are asked and told ------------------------------------------------------

  datatype Word = Word(key: string, event: Event)

  function Says(s: Setup, w: World, c: Candidate, v: Visit, i: nat): seq<Word> {
    if s.breaker.None? then [] else
      match v
      case Unregistered => []
      case Refused => [Word(Key(c), Ask(w.looked(i)))]
      case Dispatched(_) => [Word(Key(c), Ask(w.looked(i))), Word(Key(c), Report(Succeeded(v), w.over(i)))]
  }

  /** What is said in the first `n` visits. */
  function Spoken(s: Setup, w: World, route: seq<Candidate>, visits: seq<Visit>, n: nat): seq<Word>
    requires n <= |visits| <= |route|
  {
    if n == 0 then [] else Spoken(s, w, route, visits, n - 1) + Says(s, w, route[n - 1], visits[n - 1], n - 1)
  }

  /** A watcher of the log: the breakers, the keys with an admitted call not reported on, and whether every
      report so far answered such a call and every question came when there was none. */
  datatype Watch = Watch(breakers: Breakers, pending: set<string>, ok: bool)

  function WatchWord(c: Config, t: Watch, word: Word): Watch {
    var state := BreakerOf(t.breakers, word.key);
    match word.event
    case Ask(now) =>
      var (next, admitted) := Asked(c, state, now);
      Watch(t.breakers[word.key := next], if admitted then t.pending + {word.key} else t.pending,
            t.ok && word.key !in t.pending)
    case Report(success, now) =>
      Watch(t.breakers[word.key := Reported(c, state, success, now)], t.pending - {word.key},
            t.ok && word.key in t.pending)
  }

  function Watched(c: Config, t: Watch, log: seq<Word>): Watch
    decreases |log|
  {
    if log == [] then t else Watched(c, WatchWord(c, t, log[0]), log[1..])
  }

  lemma {:induction false} WatchConcat(c: Config, t: Watch, a: seq<Word>, b: seq<Word>)
    ensures Watched(c, t, a + b) == Watched(c, Watched(c, t, a), b)
    decreases |a|
  {
    if a == [] {
      assert a + b == b;
    } else {
      assert (a + b)[0] == a[0] && (a + b)[1..] == a[1..] + b;
      WatchConcat(c, WatchWord(c, t, a[0]), a[1..], b);
    }
  }

  lemma {:induction false} OkStays(c: Config, t: Watch, log: seq<Word>)
    ensures Watched(c, t, log).ok ==> t.ok
    decreases |log|
  {
    if log != [] { OkStays(c, WatchWord(c, t, log[0]), log[1..]); }
  }

  /** Where the key comes up next, or the end. */
  function NextOf(key: string, log: seq<Word>): (n: nat)
    ensures n <= |log| && (n < |log| ==> log[n].key == key) && forall i :: 0 <= i < n ==> log[i].key != key
  {
    if log == [] || log[0].key == key then 0 else NextOf(key, log[1..]) + 1
  }

  /** No call is left pending and nothing was out of place. */
  ghost predicate Accepted(c: Config, t: Watch, log: seq<Word>) {
    Watched(c, t, log).ok && Watched(c, t, log).pending == {}
  }

  /** The next word for the key, if any, is a question. */
  predicate QuestionNext(key: string, log: seq<Word>) {
    NextOf(key, log) < |log| ==> log[NextOf(key, log)].event.Ask?
  }

  /** The next word for the key is a report, and the one after it, if any, a question. */
  predicate OneReportNext(key: string, log: seq<Word>) {
    && NextOf(key, log) < |log| && log[NextOf(key, log)].event.Report?
    && QuestionNext(key, log[NextOf(key, log) + 1..])
  }

  lemma LaterNext(key: string, log: seq<Word>)
    requires log != [] && log[0].key != key
    ensures QuestionNext(key, log) <==> QuestionNext(key, log[1..])
    ensures OneReportNext(key, log) <==> OneReportNext(key, log[1..])
  {
    var n := NextOf(key, log[1..]);
    if n < |log[1..]| { assert log[1..][n + 1..] == log[NextOf(key, log) + 1..]; }
  }

  lemma {:induction false} NextWord(c: Config, t: Watch, log: seq<Word>, key: string)
    requires Accepted(c, t, log)
    ensures if key in t.pending then OneReportNext(key, log) else QuestionNext(key, log)
    decreases |log|
  {
    if log != [] {
      OkStays(c, WatchWord(c, t, log[0]), log[1..]);
      NextWord(c, WatchWord(c, t, log[0]), log[1..], key);
      if log[0].key != key { LaterNext(key, log); }
    }
  }

  lemma {:induction false} RestIsAccepted(c: Config, t: Watch, log: seq<Word>, i: nat)
    requires Accepted(c, t, log) && i < |log|
    ensures Accepted(c, WatchWord(c, Watched(c, t, log[..i]), log[i]), log[i + 1..])
    decreases i
  {
    if i > 0 {
      var rest := log[1..];
      assert rest[..i - 1] == log[..i][1..] && rest[i - 1] == log[i] && rest[i..] == log[i + 1..];
      RestIsAccepted(c, WatchWord(c, t, log[0]), rest, i - 1);
    }
  }

  /** In an accepted log every admitted question is followed by exactly one report for its key before the next
      question of that key, and a refused question by none. */
  lemma OneReportPerAdmission(c: Config, b: Breakers, log: seq<Word>, i: nat)
    requires Accepted(c, Watch(b, {}, true), log) && i < |log| && log[i].event.Ask?
    ensures var before := Watched(c, Watch(b, {}, true), log[..i]);
            if Asked(c, BreakerOf(before.breakers, log[i].key), log[i].event.now).1
            then OneReportNext(log[i].key, log[i + 1..])
            else QuestionNext(log[i].key, log[i + 1..])
  {
    var before := Watched(c, Watch(b, {}, true), log[..i]);
    var after := WatchWord(c, before, log[i]);
    RestIsAccepted(c, Watch(b, {}, true), log, i);
    OkStays(c, after, log[i + 1..]);
    NextWord(c, after, log[i + 1..], log[i].key);
  }

  lemma SaysWatched(s: Setup, w: World, b: Breakers, c: Candidate, v: Visit, i: nat)
    requires s.breaker.Some? && v == VisitOf(s, w, b, c, i)
    ensures Watched(s.breaker.value, Watch(b, {}, true), Says(s, w, c, v, i)) ==
            Watch(AfterVisit(s, w, b, c, v, i), {}, true)
  {
    var words, t := Says(s, w, c, v, i), Watch(b, {}, true);
    VisitDone(s, w, b, c, v, i);
    if v.Refused? {
      assert words[1..] == [];
    }
    if v.Dispatched? {
      assert words[1..][0] == words[1] && words[1..][1..] == [];
      var u := WatchWord(s.breaker.value, t, words[0]);
      assert u == Watch(AfterAsk(s, b, Key(c), w.looked(i)), {Key(c)}, true);
      assert WatchWord(s.breaker.value, u, words[1]) == Watch(AfterVisit(s, w, b, c, v, i), {}, true);
      assert Watched(s.breaker.value, t, words) ==
          Watched(s.breaker.value, u, words[1..]) == WatchWord(s.breaker.value, u, words[1]);
    }
  }

  /** The watcher accepts what is said on a journey, with no call left pending. */
  lemma {:induction false} JourneyIsWatched(s: Setup, w: World, b: Breakers, route: seq<Candidate>, visits: seq<Visit>,
                                            n: nat)
    requires s.breaker.Some? && Journey(s, w, b, route, visits) && n <= |visits|
    ensures Watched(s.breaker.value, Watch(b, {}, true), Spoken(s, w, route, visits, n))
            == Watch(BreakersAt(s, w, b, route, visits, n), {}, true)
    decreases n
  {
    if n > 0 {
      JourneyIsWatched(s, w, b, route, visits, n - 1);
      assert VisitAt(s, w, b, route, visits, n - 1);
      SaysWatched(s, w, BreakersAt(s, w, b, route, visits, n - 1), route[n - 1], visits[n - 1], n - 1);
      WatchConcat(s.breaker.value, Watch(b, {}, true), Spoken(s, w, route, visits, n - 1),
                  Says(s, w, route[n - 1], visits[n - 1], n - 1));
    }
  }

  // ---- the object -------------------------------------------------------------------------------------------

  function AfterAsk(s: Setup, b: Breakers, key: string, now: real): Breakers {
    if s.breaker.None? then b else b[key := Asked(s.breaker.value, BreakerOf(b, key), now).0]
  }

  function AfterTell(s: Setup, b: Breakers, key: string, success: bool, now: real): Breakers {
    if s.breaker.None? then b else b[key := Reported(s.breaker.value, BreakerOf(b, key), success, now)]
  }

  class DefaultRouter {
    const setup: Setup
    var breakers: Breakers
    /** Every question put to a breaker and every report made to one. */
    ghost var log: seq<Word>

    constructor (setup: Setup)
      ensures this.setup == setup && breakers == map[] && log == []
    {
      this.setup, breakers, log := setup, map[], [];
    }

    /** Asks the candidate's breaker, created on first use. */
    method AskBreaker(c: Candidate, now: real) returns (ok: bool)
      modifies this
      ensures ok == Admits(setup, old(breakers), Key(c), now)
      ensures breakers == AfterAsk(setup, old(breakers), Key(c), now)
      ensures log == old(log) + if setup.breaker.None? then [] else [Word(Key(c), Ask(now))]
    {
      if setup.breaker.None? { return true; }
      var state := if Key(c) in breakers then breakers[Key(c)] else START;
      state, ok := Asked(setup.breaker.value, state, now).0, Asked(setup.breaker.value, state, now).1;
      breakers := breakers[Key(c) := state];
      log := log + [Word(Key(c), Ask(now))];
    }

    method TellBreaker(c: Candidate, success: bool, now: real)
      modifies this
      ensures breakers == AfterTell(setup, old(breakers), Key(c), success, now)
      ensures log == old(log) + if setup.breaker.None? then [] else [Word(Key(c), Report(success, now))]
    {
      if setup.breaker.None? { return; }
      var state := if Key(c) in breakers then breakers[Key(c)] else START;
      breakers := breakers[Key(c) := Reported(setup.breaker.value, state, success, now)];
      log := log + [Word(Key(c), Report(success, now))];
    }

    /** One turn of the loop, with the two places where a call is reported on. */
    method Turn(c: Candidate, w: World, i: nat)
      returns (end: Option<Reply>, called: bool, error: Option<nat>, ghost v: Visit)
      modifies this
      ensures v == VisitOf(setup, w, old(breakers), c, i)
      ensures breakers == AfterVisit(setup, w, old(breakers), c, v, i)
      ensures log == old(log) + Says(setup, w, c, v, i)
      ensures called == v.Dispatched? && error == ErrorOf(v)
      ensures end == if GoesOn(v) then None else Some(LastReply(v))
    {
      end, called, error := None, false, None;
      VisitDone(setup, w, breakers, c, VisitOf(setup, w, breakers, c, i), i);
      if c.provider !in setup.providers {
        v := Unregistered;
        return;
      }
      var ok := AskBreaker(c, w.looked(i));
      if !ok {
        v := Refused;
        return;
      }
      called := true;
      var answer, calls := Retry(w.answer(i), Max(setup));
      if setup.deadline.Some? && w.cut(i).Some? {
        TellBreaker(c, false, w.over(i));
        end, v := Some(Err(DeadlineExceeded)), Dispatched(Try(setup, w, i));
        return;
      }
      TellBreaker(c, answer.Done?, w.over(i));
      v := Dispatched(Finished(calls, answer));
      match answer {
        case Done(response) => end := Some(Ok(response));
        case Failed(e, retryable) =>
          error := Some(e);
          if !retryable { end := Some(Err(GenAi(e))); }
      }
    }

    method Execute(route: seq<Candidate>, w: World) returns (reply: Reply, ghost visits: seq<Visit>)
      modifies this
      ensures Journey(setup, w, old(breakers), route, visits) && Complete(setup, w, route, visits)
      ensures reply == ReplyOf(route, visits)
      ensures breakers == BreakersAt(setup, w, old(breakers), route, visits, |visits|)
      ensures log == old(log) + Spoken(setup, w, route, visits, |visits|)
      ensures setup.breaker.Some? ==> Accepted(setup.breaker.value, Watch(old(breakers), {}, true), log[|old(log)|..])
    {
      var lastErr: Option<nat> := None;
      var tried := 0;
      visits := [];
      ghost var b0, l0 := breakers, log;
      assert l0 + [] == l0;
      for i := 0 to |route|
        invariant |visits| == i && OnWay(setup, w, b0, route, visits, l0, breakers, log)
        invariant lastErr == LastError(visits) && tried == Attempts(visits)
      {
        if setup.deadline.Some? && w.looked(i) >= setup.deadline.value {
          LogIsAccepted(setup, w, b0, route, visits, l0, log);
          return Err(DeadlineExceeded), visits;
        }
        ghost var before, b := visits, breakers;
        var end, called, error, v := Turn(route[i], w, i);
        visits := Visited(setup, w, b0, route, before, l0, b, log, v);
        if called { tried := tried + 1; }
        if error.Some? { lastErr := error; }
        if end.Some? {
          LogIsAccepted(setup, w, b0, route, visits, l0, log);
          return end.value, visits;
        }
      }
      LogIsAccepted(setup, w, b0, route, visits, l0, log);
      reply := match lastErr case Some(e) => Err(AllRoutesFailed(tried, e)) case None => Err(NoRoute);
    }
  }

  /** The journey so far, all of it going on, with the breakers and the log it leaves. */
  ghost predicate Followed(s: Setup, w: World, b0: Breakers, route: seq<Candidate>, visits: seq<Visit>, l0: seq<Word>,
                           b: Breakers, log: seq<Word>) {
    && Journey(s, w, b0, route, visits)
    && b == BreakersAt(s, w, b0, route, visits, |visits|)
    && log == l0 + Spoken(s, w, route, visits, |visits|)
  }

  ghost predicate OnWay(s: Setup, w: World, b0: Breakers, route: seq<Candidate>, visits: seq<Visit>, l0: seq<Word>,
                        b: Breakers, log: seq<Word>) {
    Followed(s, w, b0, route, visits, l0, b, log) && forall j :: 0 <= j < |visits| ==> GoesOn(visits[j])
  }

  lemma LogIsAccepted(s: Setup, w: World, b0: Breakers, route: seq<Candidate>, visits: seq<Visit>, l0: seq<Word>,
                      log: seq<Word>)
    requires Journey(s, w, b0, route, visits) && log == l0 + Spoken(s, w, route, visits, |visits|)
    ensures |log| >= |l0| && (s.breaker.Some? ==> Accepted(s.breaker.value, Watch(b0, {}, true), log[|l0|..]))
  {
    Parts(l0, Spoken(s, w, route, visits, |visits|));
    if s.breaker.Some? { JourneyIsWatched(s, w, b0, route, visits, |visits|); }
  }

  lemma AskThenReport(c: Config, s: State, w: World, v: Visit, i: nat)
    requires v.Dispatched?
    ensures Run(c, s, Hears(w, v, i)) == Reported(c, Asked(c, s, w.looked(i)).0, Succeeded(v), w.over(i))
  {
    var es := Hears(w, v, i);
    var rest := es[1..];
    assert rest == [Report(Succeeded(v), w.over(i))] && rest[1..] == [];
    var asked := Step(c, s, es[0]);
    assert Run(c, s, es) == Run(c, asked, rest);
    assert Run(c, asked, rest) == Run(c, Step(c, asked, rest[0]), []);
  }

  lemma {:induction false} SameStart(s: Setup, w: World, b: Breakers, route: seq<Candidate>, visits: seq<Visit>,
                                     v: Visit, n: nat)
    requires n <= |visits| < |route|
    ensures BreakersAt(s, w, b, route, visits + [v], n) == BreakersAt(s, w, b, route, visits, n)
    decreases n
  {
    if n > 0 { SameStart(s, w, b, route, visits, v, n - 1); }
  }

  /** One more visit that belongs there keeps the journey a journey. */
  lemma Extend(s: Setup, w: World, b: Breakers, route: seq<Candidate>, visits: seq<Visit>, v: Visit)
    requires Journey(s, w, b, route, visits) && |visits| < |route| && !Late(s, w, |visits|)
    requires forall j :: 0 <= j < |visits| ==> GoesOn(visits[j])
    requires v == VisitOf(s, w, BreakersAt(s, w, b, route, visits, |visits|), route[|visits|], |visits|)
    ensures Journey(s, w, b, route, visits + [v])
    ensures BreakersAt(s, w, b, route, visits + [v], |visits|) == BreakersAt(s, w, b, route, visits, |visits|)
  {
    var all := visits + [v];
    forall i | 0 <= i < |all|
      ensures VisitAt(s, w, b, route, all, i)
    {
      SameStart(s, w, b, route, visits, v, i);
      if i < |visits| { assert VisitAt(s, w, b, route, visits, i); }
    }
    SameStart(s, w, b, route, visits, v, |visits|);
  }

  lemma {:induction false} SameWords(s: Setup, w: World, route: seq<Candidate>, visits: seq<Visit>, v: Visit, n: nat)
    requires n <= |visits| < |route|
    ensures Spoken(s, w, route, visits + [v], n) == Spoken(s, w, route, visits, n)
    decreases n
  {
    if n > 0 { SameWords(s, w, route, visits, v, n - 1); }
  }

  /** What asking and telling did is what the visit does. */
  lemma VisitDone(s: Setup, w: World, b: Breakers, c: Candidate, v: Visit, i: nat)
    requires v == VisitOf(s, w, b, c, i)
    ensures v.Refused? ==> AfterVisit(s, w, b, c, v, i) == AfterAsk(s, b, Key(c), w.looked(i))
    ensures v.Dispatched? ==>
              AfterVisit(s, w, b, c, v, i) ==
                  AfterTell(s, AfterAsk(s, b, Key(c), w.looked(i)), Key(c), Succeeded(v), w.over(i))
  {
    if v.Refused? {
      var es := Hears(w, v, i);
      assert es[1..] == [] && Run(s.breaker.value, BreakerOf(b, Key(c)), es) ==
          Step(s.breaker.value, BreakerOf(b, Key(c)), es[0]);
    }
    if v.Dispatched? && s.breaker.Some? {
      AskThenReport(s.breaker.value, BreakerOf(b, Key(c)), w, v, i);
      var asked := AfterAsk(s, b, Key(c), w.looked(i));
      assert asked[Key(c) := Reported(s.breaker.value, BreakerOf(asked, Key(c)), Succeeded(v), w.over(i))]
          == b[Key(c) := Reported(s.breaker.value, BreakerOf(asked, Key(c)), Succeeded(v), w.over(i))];
    }
  }

  /** One more visit, with what was said for it, keeps the journey followed. */
  lemma Visited(s: Setup, w: World, b0: Breakers, route: seq<Candidate>, visits: seq<Visit>, l0: seq<Word>,
                b: Breakers, log: seq<Word>, v: Visit)
    returns (all: seq<Visit>)
    requires |visits| < |route| && !Late(s, w, |visits|)
    requires OnWay(s, w, b0, route, visits, l0, b, l0 + Spoken(s, w, route, visits, |visits|))
    requires v == VisitOf(s, w, b, route[|visits|], |visits|)
    requires log == l0 + Spoken(s, w, route, visits, |visits|) + Says(s, w, route[|visits|], v, |visits|)
    ensures all == visits + [v] && all[..|visits|] == visits
    ensures Followed(s, w, b0, route, all, l0, AfterVisit(s, w, b, route[|visits|], v, |visits|), log)
  {
    all := visits + [v];
    Extend(s, w, b0, route, visits, v);
    SameWords(s, w, route, visits, v, |visits|);
    Assoc(l0, Spoken(s, w, route, visits, |visits|), Says(s, w, route[|visits|], v, |visits|));
  }
}
