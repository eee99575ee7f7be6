/** The token-bucket filter of `turbo/mod.rs`, over the reals, and its sweep of idle buckets. */
module RateLimit {
  import opened Seqs

  const SWEEP_INTERVAL := 60.0

  datatype Bucket = Bucket(tokens: real, last: real)

  type Buckets = map<string, Bucket>

  /** The burst, and how many tokens flow in over a time. */
  datatype Config = Config(refill: real -> real, burst: real)

  function PerSecond(rate: real, burst: real): Config {
    Config((elapsed: real) => elapsed * rate, burst)
  }

  ghost predicate Adds(c: Config, x: real, y: real) {
    c.refill(x + y) == c.refill(x) + c.refill(y)
  }

  /** What flows in over two times is what flows in over both together. */
  ghost predicate Steady(c: Config) {
    forall x, y :: Adds(c, x, y)
  }

  ghost predicate Growing(c: Config) {
    forall x :: x >= 0.0 ==> c.refill(x) >= 0.0
  }

  ghost predicate Shrinking(c: Config) {
    forall x :: x >= 0.0 ==> c.refill(x) <= 0.0
  }

  lemma PerSecondIsSteady(rate: real, burst: real)
    ensures Steady(PerSecond(rate, burst))
    ensures rate >= 0.0 ==> Growing(PerSecond(rate, burst))
    ensures rate <= 0.0 ==> Shrinking(PerSecond(rate, burst))
  {
    var c := PerSecond(rate, burst);
    forall x, y
      ensures Adds(c, x, y)
    {
      Distributes(x, y, rate);
    }
    forall x | x >= 0.0
      ensures rate >= 0.0 ==> c.refill(x) >= 0.0
      ensures rate <= 0.0 ==> c.refill(x) <= 0.0
    {
      SignOf(x, rate);
    }
  }

  lemma Distributes(x: real, y: real, rate: real)
    ensures (x + y) * rate == x * rate + y * rate
  {}

  lemma SignOf(x: real, rate: real)
    requires x >= 0.0
    ensures rate >= 0.0 ==> x * rate >= 0.0
    ensures rate <= 0.0 ==> x * rate <= 0.0
  {}

  datatype Request = Request(key: string, now: real)

  function Min(a: real, b: real): real {
    if a <= b then a else b
  }

  /** `duration_since`. Clocks are read before the lock is taken, so a reading can be before the last one; then no
      time has passed. */
  function Since(now: real, last: real): real {
    if last < now then now - last else 0.0
  }

  function Refilled(c: Config, b: Bucket, now: real): real {
    Min(b.tokens + c.refill(Since(now, b.last)), c.burst)
  }

  /** What a key can draw on at `now`; one never seen has a full bucket. */
  function Level(c: Config, buckets: Buckets, key: string, now: real): real {
    Refilled(c, if key in buckets then buckets[key] else Bucket(c.burst, now), now)
  }

  function Swept(c: Config, buckets: Buckets, now: real): Buckets {
    map k | k in buckets && Refilled(c, buckets[k], now) < c.burst :: buckets[k]
  }

  /** One request without any sweep. */
  function Draw(c: Config, buckets: Buckets, r: Request): (Buckets, bool) {
    var level := Level(c, buckets, r.key, r.now);
    if level >= 1.0 then (buckets[r.key := Bucket(level - 1.0, r.now)], true)
    else (buckets[r.key := Bucket(level, r.now)], false)
  }

  datatype State = State(buckets: Buckets, lastSweep: real)

  predicate IsDue(st: State, now: real) {
    Since(now, st.lastSweep) >= SWEEP_INTERVAL
  }

  /** The buckets that a request finds, after the sweep if one is due. */
  function Found(c: Config, st: State, now: real): Buckets {
    if IsDue(st, now) then Swept(c, st.buckets, now) else st.buckets
  }

  function Filter(c: Config, st: State, r: Request): (State, bool) {
    var (after, admitted) := Draw(c, Found(c, st, r.now), r);
    (State(after, if IsDue(st, r.now) then r.now else st.lastSweep), admitted)
  }

  function Decisions(c: Config, st: State, rs: seq<Request>): seq<bool>
    decreases |rs|
  {
    if rs == [] then [] else
      var (after, admitted) := Filter(c, st, rs[0]);
      [admitted] + Decisions(c, after, rs[1..])
  }

  function PlainDecisions(c: Config, buckets: Buckets, rs: seq<Request>): seq<bool>
    decreases |rs|
  {
    if rs == [] then [] else
      var (after, admitted) := Draw(c, buckets, rs[0]);
      [admitted] + PlainDecisions(c, after, rs[1..])
  }

  /** Times do not go back, not behind `start` either. */
  predicate InOrder(start: real, rs: seq<Request>)
    decreases |rs|
  {
    rs == [] || (start <= rs[0].now && InOrder(rs[0].now, rs[1..]))
  }

  // ---- in time order the sweep is invisible ------------------------------------------------------------------------

  predicate BucketTouched(c: Config, b: Bucket, now: real) {
    b.last <= now && b.tokens <= c.burst && (c.burst >= 1.0 ==> b.tokens < c.burst)
  }

  /** Buckets were last touched by `now`, and while a request costs less than the burst they are not full. */
  predicate Touched(c: Config, buckets: Buckets, now: real) {
    forall k :: k in buckets ==> BucketTouched(c, buckets[k], now)
  }

  /** A bucket that is there is the same; one that was swept is full from now on. */
  ghost predicate Alike(c: Config, few: Buckets, all: Buckets, now: real) {
    && few.Keys <= all.Keys
    && forall k :: k in all ==> if k in few then few[k] == all[k] else Growing(c) && Refilled(c, all[k], now) == c.burst
  }

  lemma LongerIsFuller(c: Config, b: Bucket, now: real, later: real)
    requires Steady(c) && Growing(c) && now <= later && Refilled(c, b, now) == c.burst
    ensures Refilled(c, b, later) == c.burst
  {
    FlowGrows(c, Since(now, b.last), Since(later, b.last));
  }

  lemma FlowGrows(c: Config, x: real, y: real)
    requires Steady(c) && Growing(c) && x <= y
    ensures c.refill(x) <= c.refill(y)
  {
    assert Adds(c, x, y - x) && x + (y - x) == y;
  }

  lemma NoFlow(c: Config)
    requires Steady(c)
    ensures c.refill(0.0) == 0.0
  {
    assert Adds(c, 0.0, 0.0);
  }

  lemma NegativeRateNeverFills(c: Config, b: Bucket, now: real)
    requires Shrinking(c) && b.last <= now && b.tokens < c.burst
    ensures Refilled(c, b, now) < c.burst
  {}

  lemma SweepKeepsAlike(c: Config, few: Buckets, all: Buckets, before: real, now: real)
    requires Steady(c) && (Growing(c) || Shrinking(c)) && c.burst >= 1.0
    requires before <= now && Alike(c, few, all, before) && Touched(c, all, before)
    ensures Alike(c, Swept(c, few, now), all, now) && Alike(c, few, all, now)
  {
    forall k | k in all && k !in few
      ensures Growing(c) && Refilled(c, all[k], now) == c.burst
    {
      LongerIsFuller(c, all[k], before, now);
    }
    forall k | k in few && k !in Swept(c, few, now)
      ensures Growing(c) && Refilled(c, all[k], now) == c.burst
    {
      if Shrinking(c) { NegativeRateNeverFills(c, all[k], now); }
    }
  }

  lemma DrawAlike(c: Config, few: Buckets, all: Buckets, r: Request)
    requires Steady(c) && c.burst >= 1.0 && Alike(c, few, all, r.now)
    ensures Draw(c, few, r).1 == Draw(c, all, r).1 && Alike(c, Draw(c, few, r).0, Draw(c, all, r).0, r.now)
  {
    NoFlow(c);
    assert Level(c, few, r.key, r.now) == Level(c, all, r.key, r.now);
  }

  lemma DrawTouches(c: Config, buckets: Buckets, before: real, r: Request)
    requires Touched(c, buckets, before) && before <= r.now
    ensures Touched(c, Draw(c, buckets, r).0, r.now)
  {}

  lemma {:induction false} BigBurst(c: Config, st: State, all: Buckets, before: real, rs: seq<Request>)
    requires Steady(c) && (Growing(c) || Shrinking(c)) && c.burst >= 1.0
    requires Alike(c, st.buckets, all, before) && Touched(c, all, before) && InOrder(before, rs)
    ensures Decisions(c, st, rs) == PlainDecisions(c, all, rs)
    decreases |rs|
  {
    if rs != [] {
      var r := rs[0];
      SweepKeepsAlike(c, st.buckets, all, before, r.now);
      DrawAlike(c, Found(c, st, r.now), all, r);
      DrawTouches(c, all, before, r);
      BigBurst(c, Filter(c, st, r).0, Draw(c, all, r).0, r.now, rs[1..]);
    }
  }

  /** With a burst below one token nothing is ever admitted, swept or not. */
  lemma {:induction false} SmallBurst(c: Config, st: State, all: Buckets, rs: seq<Request>)
    requires c.burst < 1.0
    ensures Decisions(c, st, rs) == PlainDecisions(c, all, rs)
    decreases |rs|
  {
    if rs != [] { SmallBurst(c, Filter(c, st, rs[0]).0, Draw(c, all, rs[0]).0, rs[1..]); }
  }

  /** For every rate (`PerSecondIsSteady`), burst and sequence of requests in time order, sweeping idle buckets
      changes no decision. */
  lemma SweepIsInvisible(c: Config, start: real, rs: seq<Request>)
    requires Steady(c) && (Growing(c) || Shrinking(c)) && InOrder(start, rs)
    ensures Decisions(c, State(map[], start), rs) == PlainDecisions(c, map[], rs)
  {
    if c.burst >= 1.0 {
      BigBurst(c, State(map[], start), map[], start, rs);
    } else {
      SmallBurst(c, State(map[], start), map[], rs);
    }
  }

  // ---- with readings in any order -------------------------------------------------------------------

  function StateAfter(c: Config, st: State, rs: seq<Request>): State
    decreases |rs|
  {
    if rs == [] then st else StateAfter(c, Filter(c, st, rs[0]).0, rs[1..])
  }

  /** The buckets after some requests, without sweeps. */
  function BucketsAfter(c: Config, buckets: Buckets, rs: seq<Request>): Buckets
    decreases |rs|
  {
    if rs == [] then buckets else BucketsAfter(c, Draw(c, buckets, rs[0]).0, rs[1..])
  }

  lemma {:induction false} DecisionsConcat(c: Config, st: State, a: seq<Request>, b: seq<Request>)
    ensures Decisions(c, st, a + b) == Decisions(c, st, a) + Decisions(c, StateAfter(c, st, a), b)
    ensures StateAfter(c, st, a + b) == StateAfter(c, StateAfter(c, st, a), b)
    ensures |Decisions(c, st, a)| == |a|
    decreases |a|
  {
    if a == [] {
      assert a + b == b;
    } else {
      assert (a + b)[0] == a[0] && (a + b)[1..] == a[1..] + b;
      DecisionsConcat(c, Filter(c, st, a[0]).0, a[1..], b);
    }
  }

  lemma {:induction false} PlainConcat(c: Config, buckets: Buckets, a: seq<Request>, b: seq<Request>)
    ensures PlainDecisions(c, buckets, a + b) ==
            PlainDecisions(c, buckets, a) + PlainDecisions(c, BucketsAfter(c, buckets, a), b)
    ensures BucketsAfter(c, buckets, a + b) == BucketsAfter(c, BucketsAfter(c, buckets, a), b)
    ensures |PlainDecisions(c, buckets, a)| == |a|
    decreases |a|
  {
    if a == [] {
      assert a + b == b;
    } else {
      assert (a + b)[0] == a[0] && (a + b)[1..] == a[1..] + b;
      PlainConcat(c, Draw(c, buckets, a[0]).0, a[1..], b);
    }
  }

  /** The sweep changes no decision, in whatever order the clock readings come. */
  ghost predicate SweepChangesNothing(c: Config) {
    forall start, rs :: Decisions(c, State(map[], start), rs) == PlainDecisions(c, map[], rs)
  }

  predicate NoneFull(c: Config, buckets: Buckets) {
    forall k :: k in buckets ==> buckets[k].tokens < c.burst
  }

  /** Without refill nothing is ever swept. */
  lemma {:induction false} NothingSwept(c: Config, st: State, rs: seq<Request>)
    requires Shrinking(c) && c.burst >= 1.0 && NoneFull(c, st.buckets)
    ensures Decisions(c, st, rs) == PlainDecisions(c, st.buckets, rs)
    decreases |rs|
  {
    if rs != [] {
      assert Swept(c, st.buckets, rs[0].now) == st.buckets;
      NothingSwept(c, Filter(c, st, rs[0]).0, rs[1..]);
    }
  }

  function Repeat(r: Request, n: nat): seq<Request> {
    if n == 0 then [] else [r] + Repeat(r, n - 1)
  }

  /** Requests at one time draw a bucket down token by token, with no sweep. */
  lemma {:induction false} DrawsDown(c: Config, b: Bucket, key: string, n: nat)
    requires Steady(c) && b.tokens <= c.burst && n as real <= b.tokens
    ensures var rs := Repeat(Request(key, b.last), n); var after := map[key := Bucket(b.tokens - n as real, b.last)];
            && StateAfter(c, State(map[key := b], b.last), rs) == State(after, b.last)
            && BucketsAfter(c, map[key := b], rs) == after
    decreases n
  {
    if n > 0 {
      NoFlow(c);
      var r, next := Request(key, b.last), b.(tokens := b.tokens - 1.0);
      var rs := Repeat(r, n);
      assert rs[0] == r && rs[1..] == Repeat(r, n - 1);
      assert map[key := b][key := next] == map[key := next];
      assert Draw(c, map[key := b], r).0 == map[key := next];
      DrawsDown(c, next, key, n - 1);
    }
  }

  /** A new key drawn down to less than a token. */
  lemma DrainsNew(c: Config, key: string, now: real) returns (rs: seq<Request>, left: real)
    requires Steady(c) && c.burst >= 1.0
    ensures 0.0 <= left < 1.0 && var after := map[key := Bucket(left, now)];
            && StateAfter(c, State(map[], now), rs) == State(after, now)
            && BucketsAfter(c, map[], rs) == after
  {
    NoFlow(c);
    var n := c.burst.Floor;
    left := c.burst - n as real;
    var first := Request(key, now);
    rs := [first] + Repeat(first, n - 1);
    assert rs[0] == first && rs[1..] == Repeat(first, n - 1);
    assert Draw(c, map[], first).0 == map[key := Bucket(c.burst - 1.0, now)];
    DrawsDown(c, Bucket(c.burst - 1.0, now), key, n - 1);
  }

  lemma TimeToFill(rate: real, burst: real)
    requires rate > 0.0 && burst >= 0.0
    ensures burst / rate >= 0.0 && (SWEEP_INTERVAL + burst / rate) * rate >= burst
  {
    SignOf(SWEEP_INTERVAL, rate);
    Distributes(SWEEP_INTERVAL, burst / rate, rate);
  }

  lemma TwoDecisions(c: Config, st: State, buckets: Buckets, a: Request, b: Request)
    ensures Decisions(c, st, [a, b]) == [Filter(c, st, a).1, Filter(c, Filter(c, st, a).0, b).1]
    ensures PlainDecisions(c, buckets, [a, b]) == [Draw(c, buckets, a).1, Draw(c, Draw(c, buckets, a).0, b).1]
  {
    assert [a, b][1..] == [b] && [b][1..] == [];
    assert Decisions(c, Filter(c, st, a).0, [b]) == [Filter(c, Filter(c, st, a).0, b).1];
    assert PlainDecisions(c, Draw(c, buckets, a).0, [b]) == [Draw(c, Draw(c, buckets, a).0, b).1];
  }

  /** A sweep at a late reading lets a request with an early reading pass that is refused without it. */
  lemma LateSweepAdmits(c: Config, left: real, late: real)
    requires Steady(c) && c.burst >= 1.0 && 0.0 <= left < 1.0 && late >= SWEEP_INTERVAL && c.refill(late) >= c.burst
    ensures var buckets, two := map["a" := Bucket(left, 0.0)], [Request("b", late), Request("a", 0.0)];
            && |Decisions(c, State(buckets, 0.0), two)| == |PlainDecisions(c, buckets, two)| == 2
            && Decisions(c, State(buckets, 0.0), two)[1] && !PlainDecisions(c, buckets, two)[1]
  {
    NoFlow(c);
    var buckets, sweeper, back := map["a" := Bucket(left, 0.0)], Request("b", late), Request("a", 0.0);
    TwoDecisions(c, State(buckets, 0.0), buckets, sweeper, back);
    assert "a" != "b" by { assert "a"[0] != "b"[0]; }
    var swept := Filter(c, State(buckets, 0.0), sweeper).0;
    assert "a" !in swept.buckets && swept.lastSweep == late;
    assert Draw(c, buckets, sweeper).0["a"] == Bucket(left, 0.0);
  }

  lemma TailsDiffer(a: seq<bool>, b: seq<bool>, x: seq<bool>, y: seq<bool>, i: nat)
    requires |a| == |b| && i < |x| == |y| && x[i] != y[i]
    ensures a + x != b + y
  {
    assert (a + x)[|a| + i] == x[i] && (b + y)[|a| + i] == y[i];
  }

  lemma DiffersAtEnd(c: Config, start: real, rs: seq<Request>, more: seq<Request>, i: nat)
    requires var st, buckets := StateAfter(c, State(map[], start), rs), BucketsAfter(c, map[], rs);
             && i < |Decisions(c, st, more)| == |PlainDecisions(c, buckets, more)|
             && Decisions(c, st, more)[i] != PlainDecisions(c, buckets, more)[i]
    ensures !SweepChangesNothing(c)
  {
    var from := State(map[], start);
    DecisionsConcat(c, from, rs, more);
    PlainConcat(c, map[], rs, more);
    TailsDiffer(Decisions(c, from, rs), PlainDecisions(c, map[], rs), Decisions(c, StateAfter(c, from, rs), more),
                PlainDecisions(c, BucketsAfter(c, map[], rs), more), i);
    assert Decisions(c, from, rs + more) != PlainDecisions(c, map[], rs + more);
  }

  lemma SweepShows(rate: real, burst: real)
    requires rate > 0.0 && burst >= 1.0
    ensures !SweepChangesNothing(PerSecond(rate, burst))
  {
    var c, late := PerSecond(rate, burst), SWEEP_INTERVAL + burst / rate;
    PerSecondIsSteady(rate, burst);
    TimeToFill(rate, burst);
    var rs, left := DrainsNew(c, "a", 0.0);
    LateSweepAdmits(c, left, late);
    DiffersAtEnd(c, 0.0, rs, [Request("b", late), Request("a", 0.0)], 1);
  }

  /** In whatever order the readings come, the sweep changes no decision exactly if nothing flows in or nothing is
      ever admitted. */
  lemma SweepInvisibleIff(rate: real, burst: real)
    ensures SweepChangesNothing(PerSecond(rate, burst)) <==> rate <= 0.0 || burst < 1.0
  {
    var c := PerSecond(rate, burst);
    if rate > 0.0 && burst >= 1.0 {
      SweepShows(rate, burst);
    } else {
      PerSecondIsSteady(rate, burst);
      forall start, rs
        ensures Decisions(c, State(map[], start), rs) == PlainDecisions(c, map[], rs)
      {
        if burst < 1.0 {
          SmallBurst(c, State(map[], start), map[], rs);
        } else {
          NothingSwept(c, State(map[], start), rs);
        }
      }
    }
  }

  // ---- the allowance -----------------------------------------------------------------------------------

  /** How many requests of one key are admitted. */
  function Admitted(key: string, rs: seq<Request>, ds: seq<bool>): nat
    requires |rs| == |ds|
  {
    if rs == [] then 0 else (if rs[0].key == key && ds[0] then 1 else 0) + Admitted(key, rs[1..], ds[1..])
  }

  /** The readings that tell on a key: those of its own requests, and those at which buckets are swept. */
  predicate Tells(st: State, key: string, r: Request) {
    r.key == key || IsDue(st, r.now)
  }

  /** The sum of the forward steps of the readings that tell on a key, from `p` on. */
  function Forward(c: Config, st: State, key: string, p: real, rs: seq<Request>): real
    decreases |rs|
  {
    if rs == [] then 0.0 else
      var next := Filter(c, st, rs[0]).0;
      if Tells(st, key, rs[0]) then Since(rs[0].now, p) + Forward(c, next, key, rs[0].now, rs[1..])
      else Forward(c, next, key, p, rs[1..])
  }

  /** What a key's bucket holds after a time `a`; one that is not there is full. */
  function Worth(c: Config, buckets: Buckets, key: string, a: real): real {
    if key in buckets then Min(buckets[key].tokens + c.refill(a), c.burst) else c.burst
  }

  /** The bucket is not overdrawn, and was touched at most a time `a` before `p`. */
  predicate InCredit(buckets: Buckets, key: string, p: real, a: real) {
    a >= 0.0 && (key in buckets ==> buckets[key].tokens >= 0.0 && p - buckets[key].last <= a)
  }

  lemma SweepPays(c: Config, st: State, key: string, p: real, a: real, now: real)
    requires Steady(c) && Growing(c) && IsDue(st, now) && InCredit(st.buckets, key, p, a)
    ensures InCredit(Found(c, st, now), key, now, a + Since(now, p))
    ensures Worth(c, Found(c, st, now), key, a + Since(now, p)) <=
            Worth(c, st.buckets, key, a) + c.refill(Since(now, p))
  {
    assert Adds(c, a, Since(now, p));
    if key in st.buckets { FlowGrows(c, Since(now, st.buckets[key].last), a + Since(now, p)); }
  }

  lemma DrawPays(c: Config, buckets: Buckets, key: string, p: real, a: real, r: Request)
    requires Steady(c) && Growing(c) && c.burst >= 0.0 && InCredit(buckets, key, p, a) && r.key == key
    ensures var (after, admitted) := Draw(c, buckets, r);
            && InCredit(after, key, r.now, 0.0)
            && Worth(c, after, key, 0.0) + (if admitted then 1.0 else 0.0) <=
               Worth(c, buckets, key, a) + c.refill(Since(r.now, p))
  {
    NoFlow(c);
    assert Adds(c, a, Since(r.now, p));
    if key in buckets { FlowGrows(c, Since(r.now, buckets[key].last), a + Since(r.now, p)); }
  }

  /** How long ago the bucket may have been touched, after a request. */
  function AgeAfter(st: State, key: string, p: real, a: real, r: Request): real {
    if r.key == key then 0.0 else if IsDue(st, r.now) then a + Since(r.now, p) else a
  }

  lemma RequestPays(c: Config, st: State, key: string, p: real, a: real, r: Request)
    requires Steady(c) && Growing(c) && c.burst >= 0.0 && InCredit(st.buckets, key, p, a)
    ensures var (next, admitted) := Filter(c, st, r);
            var q, b := if Tells(st, key, r) then r.now else p, AgeAfter(st, key, p, a, r);
            && InCredit(next.buckets, key, q, b)
            && Worth(c, next.buckets, key, b) + (if r.key == key && admitted then 1.0 else 0.0) <=
               Worth(c, st.buckets, key, a) + if Tells(st, key, r) then c.refill(Since(r.now, p)) else 0.0
  {
    NoFlow(c);
    if IsDue(st, r.now) {
      SweepPays(c, st, key, p, a, r.now);
      if r.key == key { DrawPays(c, Found(c, st, r.now), key, r.now, a + Since(r.now, p), r); }
    } else if r.key == key {
      DrawPays(c, st.buckets, key, p, a, r);
    }
  }

  lemma {:induction false} AdmitsAtMost(c: Config, st: State, key: string, p: real, a: real, rs: seq<Request>)
    requires Steady(c) && Growing(c) && c.burst >= 0.0 && InCredit(st.buckets, key, p, a)
    ensures |Decisions(c, st, rs)| == |rs|
    ensures Admitted(key, rs, Decisions(c, st, rs)) as real <=
            Worth(c, st.buckets, key, a) + c.refill(Forward(c, st, key, p, rs))
    decreases |rs|
  {
    NoFlow(c);
    if rs != [] {
      var r, rest := rs[0], rs[1..];
      var (next, admitted) := Filter(c, st, r);
      var q, b := if Tells(st, key, r) then r.now else p, AgeAfter(st, key, p, a, r);
      RequestPays(c, st, key, p, a, r);
      AdmitsAtMost(c, next, key, q, b, rest);
      var ds := Decisions(c, next, rest);
      assert ([admitted] + ds)[1..] == ds;
      assert Adds(c, Since(r.now, p), Forward(c, next, key, q, rest));
    }
  }

  predicate NoneOverdrawn(buckets: Buckets) {
    forall k :: k in buckets ==> buckets[k].tokens >= 0.0
  }

  lemma {:induction false} StaysInCredit(c: Config, st: State, rs: seq<Request>)
    requires Growing(c) && c.burst >= 0.0 && NoneOverdrawn(st.buckets)
    ensures NoneOverdrawn(StateAfter(c, st, rs).buckets)
    decreases |rs|
  {
    if rs != [] { StaysInCredit(c, Filter(c, st, rs[0]).0, rs[1..]); }
  }

  /** In any run with sweeps, with readings in any order, after any requests `before`: the requests `window` admit
      one key at most as often as the burst allows and what flows in over the forward steps of the readings that
      tell on the key, wherever they are counted from. */
  lemma AtMostBurstPlusForward(c: Config, start: real, before: seq<Request>, window: seq<Request>, key: string, p: real)
    requires Steady(c) && Growing(c) && c.burst >= 0.0
    ensures |Decisions(c, State(map[], start), before + window)| == |before| + |window|
    ensures Admitted(key, window, Decisions(c, State(map[], start), before + window)[|before|..]) as real <=
            c.burst + c.refill(Forward(c, StateAfter(c, State(map[], start), before), key, p, window))
  {
    var st := StateAfter(c, State(map[], start), before);
    DecisionsConcat(c, State(map[], start), before, window);
    StaysInCredit(c, State(map[], start), before);
    AdmitsAtMost(c, st, key, p, if key in st.buckets then Since(p, st.buckets[key].last) else 0.0, window);
    Parts(Decisions(c, State(map[], start), before), Decisions(c, st, window));
  }

  /** Readings that do not go back have no more forward steps than the time between them. */
  lemma {:induction false} ForwardInOrder(c: Config, st: State, key: string, p: real, rs: seq<Request>, end: real)
    requires InOrder(p, rs) && p <= end && (rs != [] ==> rs[|rs| - 1].now <= end)
    ensures 0.0 <= Forward(c, st, key, p, rs) <= end - p
    decreases |rs|
  {
    if rs != [] {
      var r, rest := rs[0], rs[1..];
      assert rest != [] ==> rest[|rest| - 1] == rs[|rs| - 1];
      InOrderEnd(p, rs, end);
      InOrderLess(p, r.now, rest);
      ForwardInOrder(c, Filter(c, st, r).0, key, if Tells(st, key, r) then r.now else p, rest, end);
    }
  }

  lemma InOrderLess(p: real, q: real, rs: seq<Request>)
    requires p <= q && InOrder(q, rs)
    ensures InOrder(p, rs)
  {}

  lemma {:induction false} InOrderEnd(now: real, rs: seq<Request>, end: real)
    requires InOrder(now, rs) && rs != [] && rs[|rs| - 1].now <= end
    ensures rs[0].now <= end
    decreases |rs|
  {
    if |rs| > 1 {
      assert rs[1..][|rs| - 2] == rs[|rs| - 1];
      InOrderEnd(rs[0].now, rs[1..], end);
    }
  }

  /** In any run with sweeps, after any requests `before`, the requests `window` that come in time order within
      `length` of the first of them admit one key at most as often as the burst and what flows in over `length`
      allow. */
  lemma AtMostBurstPlusFlow(c: Config, start: real, before: seq<Request>, window: seq<Request>, key: string,
                            length: real)
    requires Steady(c) && Growing(c) && c.burst >= 0.0 && window != [] && InOrder(window[0].now, window)
    requires window[|window| - 1].now <= window[0].now + length
    ensures |Decisions(c, State(map[], start), before + window)| == |before| + |window|
    ensures Admitted(key, window, Decisions(c, State(map[], start), before + window)[|before|..]) as real <=
            c.burst + c.refill(length)
  {
    var st, now := StateAfter(c, State(map[], start), before), window[0].now;
    InOrderEnd(now, window, now + length);
    AtMostBurstPlusForward(c, start, before, window, key, now);
    ForwardInOrder(c, st, key, now, window, now + length);
    FlowGrows(c, Forward(c, st, key, now, window), length);
  }

  /** With a refill per second: at most burst + rate * length. */
  lemma AllowancePerSecond(rate: real, burst: real, length: real)
    requires rate >= 0.0
    ensures var c := PerSecond(rate, burst);
            Steady(c) && Growing(c) && c.burst + c.refill(length) == burst + length * rate
  {
    PerSecondIsSteady(rate, burst);
  }

  // ---- no token is lost --------------------------------------------------------------------------------

  /** The sum of the forward steps of a key's own readings. */
  function OwnSteps(key: string, last: real, rs: seq<Request>): real
    decreases |rs|
  {
    if rs == [] then 0.0
    else if rs[0].key == key then Since(rs[0].now, last) + OwnSteps(key, rs[0].now, rs[1..])
    else OwnSteps(key, last, rs[1..])
  }

  function Over(x: real, burst: real): real {
    if x > burst then x - burst else 0.0
  }

  /** What flows over the brim of a key's bucket. */
  function Spilled(c: Config, buckets: Buckets, key: string, rs: seq<Request>): real
    decreases |rs|
  {
    if rs == [] then 0.0 else
      var rest := Spilled(c, Draw(c, buckets, rs[0]).0, key, rs[1..]);
      if rs[0].key != key || key !in buckets then rest
      else rest + Over(buckets[key].tokens + c.refill(Since(rs[0].now, buckets[key].last)), c.burst)
  }

  lemma DrawBalances(c: Config, buckets: Buckets, key: string, now: real)
    requires key in buckets
    ensures var b := buckets[key]; var x := b.tokens + c.refill(Since(now, b.last));
            var (after, admitted) := Draw(c, buckets, Request(key, now));
            && key in after && after[key].last == now
            && after[key].tokens + (if admitted then 1.0 else 0.0) + Over(x, c.burst) == x
            && (admitted <==> x >= 1.0 && c.burst >= 1.0)
  {}

  /** What a key's bucket held and what has flowed in is what it holds, what was admitted and what was spilled; and a
      request is admitted exactly if the bucket then has a whole token. */
  lemma {:induction false} TokensBalance(c: Config, buckets: Buckets, key: string, rs: seq<Request>)
    requires Steady(c) && key in buckets
    ensures |PlainDecisions(c, buckets, rs)| == |rs| && key in BucketsAfter(c, buckets, rs)
    ensures BucketsAfter(c, buckets, rs)[key].tokens + Admitted(key, rs, PlainDecisions(c, buckets, rs)) as real +
            Spilled(c, buckets, key, rs) == buckets[key].tokens + c.refill(OwnSteps(key, buckets[key].last, rs))
    decreases |rs|
  {
    NoFlow(c);
    if rs != [] {
      var r, rest := rs[0], rs[1..];
      var (after, admitted) := Draw(c, buckets, r);
      if r.key == key {
        DrawBalances(c, buckets, key, r.now);
        assert Adds(c, Since(r.now, buckets[key].last), OwnSteps(key, r.now, rest));
      }
      TokensBalance(c, after, key, rest);
      assert rs == [r] + rest && PlainDecisions(c, buckets, rs) == [admitted] + PlainDecisions(c, after, rest);
      AdmittedNext(key, r, rest, admitted, PlainDecisions(c, after, rest));
    }
  }

  // ---- which settings keep the allowance in any order --------------------------------------------------

  predicate Within(rs: seq<Request>, length: real) {
    forall i, j :: 0 <= i < |rs| && 0 <= j < |rs| ==> rs[i].now - rs[j].now <= length
  }

  /** Requests whose readings are within `length` of each other, in whatever order they come, are admitted at most
      as often as the burst and what flows in over `length` allow. */
  ghost predicate KeepsAllowance(c: Config) {
    forall start, rs, key, length :: length >= 0.0 && Within(rs, length) ==> Keeps(c, start, rs, key, length)
  }

  ghost predicate Keeps(c: Config, start: real, rs: seq<Request>, key: string, length: real) {
    var ds := Decisions(c, State(map[], start), rs);
    |ds| == |rs| && Admitted(key, rs, ds) as real <= c.burst + c.refill(length)
  }

  /** Two readings, the earlier one first, over and over. */
  function Swings(d: real, n: nat): seq<Request> {
    if n == 0 then [] else [Request("", 0.0), Request("", d)] + Swings(d, n - 1)
  }

  lemma {:induction false} SwingsWithin(d: real, n: nat)
    requires d >= 0.0
    ensures Within(Swings(d, n), d) && forall i :: 0 <= i < |Swings(d, n)| ==> 0.0 <= Swings(d, n)[i].now <= d
  {
    if n > 0 { SwingsWithin(d, n - 1); }
  }

  lemma OneSwing(c: Config, st: State, d: real)
    requires Steady(c) && Growing(c) && c.burst >= 1.0 && d > 0.0 && c.refill(d) >= 1.0 && NoneOverdrawn(st.buckets)
    ensures var mid := Filter(c, st, Request("", 0.0)).0;
            Filter(c, mid, Request("", d)).1 && NoneOverdrawn(Filter(c, mid, Request("", d)).0.buckets)
  {
    StaysInCredit(c, st, [Request("", 0.0), Request("", d)]);
    var mid := Filter(c, st, Request("", 0.0)).0;
    assert mid.buckets[""].last == 0.0 && mid.buckets[""].tokens >= 0.0;
  }

  /** Every swing forward fills a token again. */
  lemma {:induction false} EverySwingAdmits(c: Config, st: State, d: real, n: nat)
    requires Steady(c) && Growing(c) && c.burst >= 1.0 && d > 0.0 && c.refill(d) >= 1.0 && NoneOverdrawn(st.buckets)
    ensures |Decisions(c, st, Swings(d, n))| == |Swings(d, n)|
    ensures Admitted("", Swings(d, n), Decisions(c, st, Swings(d, n))) >= n
    decreases n
  {
    if n > 0 {
      var a, b, more := Request("", 0.0), Request("", d), Swings(d, n - 1);
      var mid := Filter(c, st, a).0;
      var next := Filter(c, mid, b).0;
      OneSwing(c, st, d);
      EverySwingAdmits(c, next, d, n - 1);
      var rs, ds := Swings(d, n), Decisions(c, next, more);
      assert rs[0] == a && rs[1..] == [b] + more && rs[1..][1..] == more;
      assert Decisions(c, st, rs) == [Filter(c, st, a).1] + Decisions(c, mid, [b] + more);
      assert Decisions(c, mid, [b] + more) == [true] + ds;
      AdmittedNext("", b, more, true, ds);
      AdmittedNext("", a, [b] + more, Filter(c, st, a).1, [true] + ds);
    }
  }

  lemma AdmittedNext(key: string, r: Request, rs: seq<Request>, d: bool, ds: seq<bool>)
    requires |rs| == |ds|
    ensures Admitted(key, [r] + rs, [d] + ds) == (if r.key == key && d then 1 else 0) + Admitted(key, rs, ds)
  {
    assert ([r] + rs)[1..] == rs && ([d] + ds)[1..] == ds;
  }

  lemma SwingsBreakAllowance(rate: real, burst: real)
    requires rate > 0.0 && burst >= 1.0
    ensures !KeepsAllowance(PerSecond(rate, burst))
  {
    var c, d, n := PerSecond(rate, burst), 1.0 / rate, (burst + 1.0).Floor + 1;
    PerSecondIsSteady(rate, burst);
    assert d > 0.0 && c.refill(d) == 1.0;
    SwingsWithin(d, n);
    EverySwingAdmits(c, State(map[], 0.0), d, n);
    assert !Keeps(c, 0.0, Swings(d, n), "", d);
  }

  lemma {:induction false} NoneAdmitted(c: Config, st: State, rs: seq<Request>, key: string)
    requires c.burst < 1.0
    ensures |Decisions(c, st, rs)| == |rs| && Admitted(key, rs, Decisions(c, st, rs)) == 0
    decreases |rs|
  {
    if rs != [] {
      var (next, admitted) := Filter(c, st, rs[0]);
      NoneAdmitted(c, next, rs[1..], key);
      assert ([admitted] + Decisions(c, next, rs[1..]))[1..] == Decisions(c, next, rs[1..]);
    }
  }

  lemma NoRateKeeps(burst: real, start: real, rs: seq<Request>, key: string, length: real)
    requires burst >= 0.0
    ensures Keeps(PerSecond(0.0, burst), start, rs, key, length)
  {
    var c := PerSecond(0.0, burst);
    PerSecondIsSteady(0.0, burst);
    AtMostBurstPlusForward(c, start, [], rs, key, 0.0);
    assert [] + rs == rs;
    assert Decisions(c, State(map[], start), rs)[0..] == Decisions(c, State(map[], start), rs);
  }

  lemma NoTokenKeeps(rate: real, burst: real, start: real, rs: seq<Request>, key: string, length: real)
    requires rate >= 0.0 && 0.0 <= burst < 1.0 && length >= 0.0
    ensures Keeps(PerSecond(rate, burst), start, rs, key, length)
  {
    NoneAdmitted(PerSecond(rate, burst), State(map[], start), rs, key);
    SignOf(length, rate);
  }

  /** With readings in any order the allowance holds exactly if nothing flows in or nothing is ever admitted. */
  lemma AllowanceKeptIff(rate: real, burst: real)
    requires rate >= 0.0 && burst >= 0.0
    ensures KeepsAllowance(PerSecond(rate, burst)) <==> rate == 0.0 || burst < 1.0
  {
    var c := PerSecond(rate, burst);
    if rate > 0.0 && burst >= 1.0 {
      SwingsBreakAllowance(rate, burst);
    } else {
      forall start, rs, key, length | length >= 0.0 && Within(rs, length)
        ensures Keeps(c, start, rs, key, length)
      {
        if burst < 1.0 {
          NoTokenKeeps(rate, burst, start, rs, key, length);
        } else {
          NoRateKeeps(burst, start, rs, key, length);
        }
      }
    }
  }

  // ---- the object ----------------------------------------------------------------------------------------

  class Limiter {
    const config: Config
    var buckets: Buckets
    var lastSweep: real

    constructor (config: Config, now: real)
      ensures this.config == config && State(buckets, lastSweep) == State(map[], now)
    {
      this.config, buckets, lastSweep := config, map[], now;
    }

    /** True when the request may pass, false for 429. */
    method Check(r: Request) returns (admitted: bool)
      modifies this
      ensures (State(buckets, lastSweep), admitted) == Filter(config, State(old(buckets), old(lastSweep)), r)
    {
      if Since(r.now, lastSweep) >= SWEEP_INTERVAL {
        lastSweep := r.now;
        buckets := map k | k in buckets && Refilled(config, buckets[k], r.now) < config.burst :: buckets[k];
      }
      var entry := if r.key in buckets then buckets[r.key] else Bucket(config.burst, r.now);
      var elapsed := Since(r.now, entry.last);
      entry := Bucket(Min(entry.tokens + config.refill(elapsed), config.burst), r.now);
      admitted := entry.tokens >= 1.0;
      if admitted { entry := entry.(tokens := entry.tokens - 1.0); }
      buckets := buckets[r.key := entry];
    }
  }
}
