/** The client's response body (`http/message.rs`): framing, and handing the connection back to the pool. */
module HttpBody {
  import opened Wrappers
  import opened Seqs
  import opened Values
  import opened ChunkedCoding

  const MAX_CHUNK_SIZE := 64 * 1024 * 1024
  const READ_SIZE := 16384

  datatype Framing = Length(n: nat) | Chunked | UntilClose | Finished

  /** `conn` holds the bytes the connection has still to deliver; `pool` what was left on each connection
      handed back; `reclaim` whether this one may be. */
  datatype BodyState = BodyState(conn: Option<seq<u8>>, framing: Framing, reclaim: bool, pool: seq<seq<u8>>)

  type Reply = Result<Option<seq<u8>>, HttpError>

  function Reclaimed(b: BodyState): BodyState {
    if !b.reclaim then b
    else if b.conn.None? then b.(reclaim := false)
    else b.(conn := None, reclaim := false, pool := b.pool + [b.conn.value])
  }

  function Dropped(b: BodyState): BodyState {
    b.(conn := None, framing := Finished)
  }

  function Done(b: BodyState, rest: seq<u8>): BodyState {
    Reclaimed(b.(conn := Some(rest), framing := Finished))
  }

  /** How many bytes a plain read may return. */
  function ReadLimit(b: BodyState): nat {
    match b.framing
    case Length(n) => if n < READ_SIZE then n else READ_SIZE
    case _ => READ_SIZE
  }

  /** A read of `k` bytes is one the connection can give: none only at its end. */
  predicate CanRead(b: BodyState, k: nat) {
    b.conn.Some? && (b.framing.Length? || b.framing.UntilClose?) && ReadLimit(b) > 0 && b.conn.value != [] ==>
    1 <= k <= ReadLimit(b) && k <= |b.conn.value|
  }

  /** `next_chunk`, where a plain read returns `k` bytes. */
  function Next(lines: LineReader, b: BodyState, k: nat): (Reply, BodyState)
    requires CanRead(b, k)
  {
    if b.conn.None? then (Ok(None), b) else
      var s := b.conn.value;
      match b.framing
      case Finished => (Ok(None), Reclaimed(b))
      case Chunked => NextChunked(lines, b, s)
      case Length(n) =>
        if n == 0 then (Ok(None), Done(b, s))
        else if s == [] then (Ok(None), Dropped(b))
        else (Ok(Some(s[..k])), b.(conn := Some(s[k..]), framing := Length(n - k)))
      case UntilClose =>
        if s == [] then (Ok(None), Dropped(b)) else (Ok(Some(s[..k])), b.(conn := Some(s[k..])))
  }

  /** What is unread after the trailers: behind the blank line, behind the line that is no text, or nothing. */
  function AfterTrailers(lines: LineReader, s: seq<u8>): (rest: seq<u8>)
    ensures |rest| <= |s|
    decreases |s|
  {
    if s == [] then [] else
      var (line, rest) := SplitLine(s);
      if lines.blank(line) == Ok(false) then AfterTrailers(lines, rest) else rest
  }

  /** The connection ends inside the trailers. */
  predicate CutOff(lines: LineReader, s: seq<u8>)
    decreases |s|
  {
    s == [] || (lines.blank(SplitLine(s).0) == Ok(false) && CutOff(lines, SplitLine(s).1))
  }

  lemma {:induction false} TrailersLeave(lines: LineReader, s: seq<u8>)
    ensures Trailers(lines, s).Ok? ==> Trailers(lines, s).value == AfterTrailers(lines, s)
    decreases |s|
  {
    if s != [] { TrailersLeave(lines, SplitLine(s).1); }
  }

  /** After an error the body goes on behind what was read: the size line, the trailer line that is no text, or
      everything if the connection ended inside a chunk. */
  function NextChunked(lines: LineReader, b: BodyState, s: seq<u8>): (Reply, BodyState) {
    var (line, rest) := SplitLine(s);
    var size := lines.size(line);
    if size.Err? then (Err(size.error), b.(conn := Some(rest)))
    else if size.value > MAX_CHUNK_SIZE then (Err(ChunkTooLarge), b.(conn := Some(rest)))
    else if size.value == 0 then
      var end := Trailers(lines, rest);
      if end.Err? then (Err(end.error), b.(conn := Some(AfterTrailers(lines, rest))))
      else (Ok(None), Done(b, end.value))
    else if |rest| < size.value + 2 then (Err(UnexpectedEof), b.(conn := Some([])))
    else (Ok(Some(rest[..size.value])), b.(conn := Some(rest[size.value + 2..])))
  }

  // ---- draining -----------------------------------------------------------------------------------

  /** Calls with reads of the sizes in `ks` return `chunks`, and the call after them returns the end. */
  ghost predicate Drains(lines: LineReader, b: BodyState, ks: seq<nat>, chunks: seq<seq<u8>>, end: BodyState)
    decreases |chunks|
  {
    && ks != [] && CanRead(b, ks[0])
    && var (r, b') := Next(lines, b, ks[0]);
       if chunks == [] then r == Ok(None) && b' == end
       else r == Ok(Some(chunks[0])) && Drains(lines, b', ks[1..], chunks[1..], end)
  }

  /** With a declared length, reads of any sizes give exactly that many bytes and hand the connection back
      just after them; if it ends early, they give what there is and it is dropped. */
  lemma {:induction false} LengthDrains(lines: LineReader, b: BodyState, ks: seq<nat>, chunks: seq<seq<u8>>,
                                        end: BodyState)
    requires b.framing.Length? && b.conn.Some? && Drains(lines, b, ks, chunks, end)
    ensures var n, s := b.framing.n, b.conn.value;
            if n <= |s| then Join(chunks) == s[..n] && end == Done(b, s[n..])
            else Join(chunks) == s && end == Dropped(b)
    decreases |chunks|
  {
    if chunks != [] {
      var (_, b') := Next(lines, b, ks[0]);
      LengthDrains(lines, b', ks[1..], chunks[1..], end);
      CutTwice(b.conn.value, ks[0], b.framing.n);
    }
  }

  /** The reads can be of any sizes: every way to cut the body into pieces of one to 16384 bytes is one in which it can
      be drained. */
  lemma {:induction false} AnyCutDrains(lines: LineReader, b: BodyState, chunks: seq<seq<u8>>, rest: seq<u8>)
    returns (ks: seq<nat>)
    requires b.framing == Length(|Join(chunks)|) && b.conn == Some(Join(chunks) + rest)
    requires forall i :: 0 <= i < |chunks| ==> 1 <= |chunks[i]| <= 16384
    ensures Drains(lines, b, ks, chunks, Done(b, rest))
    decreases |chunks|
  {
    if chunks == [] {
      assert [] + rest == rest;
      ks := [if rest == [] then 0 else 1];
    } else {
      var c, more := chunks[0], Join(chunks[1..]);
      Assoc(c, more, rest);
      ReadsPiece(lines, b, c, more + rest, |more|);
      var next := b.(conn := Some(more + rest), framing := Length(|more|));
      var js := AnyCutDrains(lines, next, chunks[1..], rest);
      ks := [|c|] + js;
      DrainsOn(lines, b, ks, js, chunks, next, Done(b, rest));
    }
  }

  lemma ReadsPiece(lines: LineReader, b: BodyState, c: seq<u8>, rest: seq<u8>, n: nat)
    requires b.framing == Length(|c| + n) && b.conn == Some(c + rest) && 1 <= |c| <= 16384
    ensures CanRead(b, |c|) && Next(lines, b, |c|) == (Ok(Some(c)), b.(conn := Some(rest), framing := Length(n)))
  {
    Parts(c, rest);
  }

  lemma DrainsOn(lines: LineReader, b: BodyState, ks: seq<nat>, js: seq<nat>, chunks: seq<seq<u8>>, next: BodyState,
                 end: BodyState)
    requires chunks != [] && ks == [|chunks[0]|] + js && CanRead(b, ks[0])
    requires Next(lines, b, ks[0]) == (Ok(Some(chunks[0])), next) && Drains(lines, next, js, chunks[1..], end)
    ensures Drains(lines, b, ks, chunks, end)
  {
    assert ks[1..] == js;
  }

  lemma CutTwice(s: seq<u8>, k: nat, n: nat)
    requires k <= |s| && k <= n
    ensures s == s[..k] + s[k..]
    ensures n <= |s| ==> s[..n] == s[..k] + s[k..][..n - k] && s[n..] == s[k..][n - k..]
  {}

  lemma {:induction false} CloseDrains(lines: LineReader, b: BodyState, ks: seq<nat>, chunks: seq<seq<u8>>,
                                       end: BodyState)
    requires b.framing.UntilClose? && b.conn.Some? && Drains(lines, b, ks, chunks, end)
    ensures Join(chunks) == b.conn.value && end == Dropped(b)
    decreases |chunks|
  {
    if chunks != [] {
      var (_, b') := Next(lines, b, ks[0]);
      CloseDrains(lines, b', ks[1..], chunks[1..], end);
      CutTwice(b.conn.value, ks[0], ks[0]);
    }
  }

  function NonEmpty(chunks: seq<seq<u8>>): seq<seq<u8>> {
    if chunks == [] then [] else (if chunks[0] == [] then [] else [chunks[0]]) + NonEmpty(chunks[1..])
  }

  lemma {:induction false} NonEmptyJoins(chunks: seq<seq<u8>>)
    ensures Join(NonEmpty(chunks)) == Join(chunks)
  {
    if chunks != [] {
      NonEmptyJoins(chunks[1..]);
      if chunks[0] == [] {
        assert [] + NonEmpty(chunks[1..]) == NonEmpty(chunks[1..]) && [] + Join(chunks[1..]) == Join(chunks[1..]);
      } else {
        assert ([chunks[0]] + NonEmpty(chunks[1..]))[1..] == NonEmpty(chunks[1..]);
      }
    }
  }

  lemma ChunkNext(lines: LineReader, b: BodyState, k: nat, c: seq<u8>, rest: seq<u8>)
    requires Understands(lines) && b.framing == Chunked && b.conn == Some(Chunk(c) + rest) && 0 < |c| <= U64_MAX
    ensures Next(lines, b, k) ==
            if |c| > MAX_CHUNK_SIZE then (Err(ChunkTooLarge), b.(conn := Some(c + CRLF + rest)))
            else (Ok(Some(c)), b.(conn := Some(rest)))
  {
    ChunkParts(c, rest);
    SizeLineSplits(|c|, c + CRLF + rest);
    SizedNext(lines, b, Chunk(c) + rest, c, rest);
  }

  lemma SizedNext(lines: LineReader, b: BodyState, s: seq<u8>, c: seq<u8>, rest: seq<u8>)
    requires c != [] && SplitLine(s).1 == c + CRLF + rest && lines.size(SplitLine(s).0) == Ok(|c|)
    ensures NextChunked(lines, b, s) ==
            if |c| > MAX_CHUNK_SIZE then (Err(ChunkTooLarge), b.(conn := Some(c + CRLF + rest)))
            else (Ok(Some(c)), b.(conn := Some(rest)))
  {
    var after := SplitLine(s).1;
    assert after[..|c|] == c && after[|c| + 2..] == rest;
  }

  lemma EndNext(lines: LineReader, b: BodyState, k: nat, rest: seq<u8>)
    requires Understands(lines) && b.framing == Chunked && b.conn == Some(END + rest)
    ensures Next(lines, b, k) == (Ok(None), Done(b, rest))
  {
    EndIsZeroLine(rest);
    SizeLineSplits(0, CRLF + rest);
    BlankLineEnds(lines, rest);
  }

  /** The client gets the chunks the server sent, but for the empty ones, then the end; and the connection
      goes back just after the coding. */
  lemma {:induction false} ChunkedDrains(lines: LineReader, b: BodyState, ks: seq<nat>, chunks: seq<seq<u8>>,
                                         rest: seq<u8>)
    requires Understands(lines) && b.framing == Chunked && b.conn == Some(Wire(chunks) + rest)
    requires |ks| > |NonEmpty(chunks)| && forall i :: 0 <= i < |chunks| ==> |chunks[i]| <= MAX_CHUNK_SIZE
    ensures Drains(lines, b, ks, NonEmpty(chunks), Done(b, rest)) && Join(NonEmpty(chunks)) == Join(chunks)
    decreases |chunks|
  {
    NonEmptyJoins(chunks);
    if chunks == [] {
      EndNext(lines, b, ks[0], rest);
    } else {
      var c, more, later := chunks[0], Wire(chunks[1..]), NonEmpty(chunks[1..]);
      if c == [] {
        assert [] + more == more && [] + later == later;
        ChunkedDrains(lines, b, ks, chunks[1..], rest);
      } else {
        Assoc(Chunk(c), more, rest);
        ChunkNext(lines, b, ks[0], c, more + rest);
        assert ([c] + later)[1..] == later;
        ChunkedDrains(lines, b.(conn := Some(more + rest)), ks[1..], chunks[1..], rest);
      }
    }
  }

  /** A chunk over the limit is an error for the client, after the chunks before it. */
  lemma OversizedChunkFails(lines: LineReader, b: BodyState, k: nat, c: seq<u8>, rest: seq<u8>)
    requires Understands(lines) && b.framing == Chunked && b.conn == Some(Chunk(c) + rest) && 0 < |c| <= U64_MAX
    ensures Next(lines, b, k).0.Err? <==> |c| > MAX_CHUNK_SIZE
  {
    ChunkNext(lines, b, k, c, rest);
  }

  // ---- the pool ---------------------------------------------------------------------------------------

  ghost predicate Calls(lines: LineReader, b: BodyState, ks: seq<nat>, end: BodyState)
    decreases |ks|
  {
    if ks == [] then b == end
    else CanRead(b, ks[0]) && Calls(lines, Next(lines, b, ks[0]).1, ks[1..], end)
  }

  /** The one connection went into the pool. */
  predicate HandedBack(b: BodyState, end: BodyState) {
    && b.reclaim && !end.reclaim && b.conn.Some? && end.conn.None?
    && |end.pool| == |b.pool| + 1 && b.pool <= end.pool
  }

  /** However often a body is polled, its connection is handed back at most once, and only if it may be. */
  lemma {:induction false} ReclaimedOnce(lines: LineReader, b: BodyState, ks: seq<nat>, end: BodyState)
    requires Calls(lines, b, ks, end)
    ensures end.pool == b.pool || HandedBack(b, end)
    ensures b.conn.None? ==> end == b
    decreases |ks|
  {
    if ks != [] {
      NextReclaims(lines, b, ks[0]);
      ReclaimedOnce(lines, Next(lines, b, ks[0]).1, ks[1..], end);
    }
  }

  lemma NextReclaims(lines: LineReader, b: BodyState, k: nat)
    requires CanRead(b, k)
    ensures var b' := Next(lines, b, k).1;
            && (b.conn.None? ==> b' == b)
            && ((b'.pool == b.pool && (b'.reclaim ==> b.reclaim)) || HandedBack(b, b'))
  {}

  // ---- handed back when it should not be --------------------------------------------------------------

  /** The connection is promised to go back only after a clean end. These calls, after an error if `erred`, hand it
      back after an error, or after the connection itself has ended. */
  ghost predicate BadlyHandedBack(lines: LineReader, b: BodyState, ks: seq<nat>, erred: bool)
    decreases |ks|
  {
    && ks != [] && CanRead(b, ks[0])
    && var (r, next) := Next(lines, b, ks[0]);
       || (next.pool != b.pool && (erred || SawEnd(lines, b)))
       || BadlyHandedBack(lines, next, ks[1..], erred || r.Err?)
  }

  /** The end of the coding is read up to the end of the connection. */
  predicate SawEnd(lines: LineReader, b: BodyState) {
    b.framing == Chunked && b.conn.Some? && CutOff(lines, SplitLine(b.conn.value).1)
  }

  /** The bytes of which that is so, read line by line: behind an error, or cut off, there is the end of a coding. */
  predicate IsBad(lines: LineReader, s: seq<u8>, erred: bool)
    decreases |s|
  {
    var (line, rest) := SplitLine(s);
    var size := lines.size(line);
    if s == [] then size == Ok(0)
    else if size.Err? || size.value > MAX_CHUNK_SIZE then IsBad(lines, rest, true)
    else if size.value == 0 then
      if Trailers(lines, rest).Ok? then erred || CutOff(lines, rest)
      else IsBad(lines, AfterTrailers(lines, rest), true)
    else if |rest| < size.value + 2 then IsBad(lines, [], true)
    else IsBad(lines, rest[size.value + 2..], erred)
  }

  /** What is unread after a call that does not end the coding. */
  function After(lines: LineReader, s: seq<u8>): (rest: seq<u8>)
    ensures |rest| <= |s| && (s != [] ==> |rest| < |s|)
  {
    var (line, rest) := SplitLine(s);
    var size := lines.size(line);
    if size.Err? || size.value > MAX_CHUNK_SIZE then rest
    else if size.value == 0 then AfterTrailers(lines, rest)
    else if |rest| < size.value + 2 then []
    else rest[size.value + 2..]
  }

  /** This call reads the end of the coding. */
  predicate Completes(lines: LineReader, s: seq<u8>) {
    lines.size(SplitLine(s).0) == Ok(0) && Trailers(lines, SplitLine(s).1).Ok?
  }

  lemma ChunkedCall(lines: LineReader, b: BodyState, k: nat, s: seq<u8>)
    requires b.framing == Chunked && b.reclaim && b.conn == Some(s)
    ensures var (r, next) := Next(lines, b, k);
            if Completes(lines, s) then r == Ok(None) && next.conn.None? && next.pool == b.pool + [After(lines, s)]
            else next == b.(conn := Some(After(lines, s)))
  {
    TrailersLeave(lines, SplitLine(s).1);
  }

  lemma BadStep(lines: LineReader, b: BodyState, k: nat, s: seq<u8>, erred: bool)
    requires b.framing == Chunked && b.reclaim && b.conn == Some(s)
    ensures if Completes(lines, s) then IsBad(lines, s, erred) <==> erred || SawEnd(lines, b) || s == []
            else IsBad(lines, s, erred) <==>
                 s != [] && IsBad(lines, After(lines, s), erred || Next(lines, b, k).0.Err?)
  {}

  lemma NothingUnread(lines: LineReader, b: BodyState, erred: bool)
    requires b.framing == Chunked && b.conn == Some([])
    ensures SawEnd(lines, b) && After(lines, []) == [] && (IsBad(lines, [], erred) <==> Completes(lines, []))
  {}

  lemma {:induction false} BackWithout(lines: LineReader, b: BodyState, ks: seq<nat>, erred: bool)
    requires b.conn.None?
    ensures !BadlyHandedBack(lines, b, ks, erred)
    decreases |ks|
  {
    if ks != [] { BackWithout(lines, b, ks[1..], erred); }
  }

  lemma {:induction false} BackMeansBad(lines: LineReader, b: BodyState, ks: seq<nat>, s: seq<u8>, erred: bool)
    requires b.framing == Chunked && b.reclaim && b.conn == Some(s) && BadlyHandedBack(lines, b, ks, erred)
    ensures IsBad(lines, s, erred)
    decreases |ks|
  {
    var (r, next) := Next(lines, b, ks[0]);
    ChunkedCall(lines, b, ks[0], s);
    BadStep(lines, b, ks[0], s, erred);
    if Completes(lines, s) {
      BackWithout(lines, next, ks[1..], erred || r.Err?);
    } else {
      BackMeansBad(lines, next, ks[1..], After(lines, s), erred || r.Err?);
      if s == [] { NothingUnread(lines, b, erred); }
    }
  }

  lemma {:induction false} BadComesBack(lines: LineReader, b: BodyState, s: seq<u8>, erred: bool) returns (ks: seq<nat>)
    requires b.framing == Chunked && b.reclaim && b.conn == Some(s) && IsBad(lines, s, erred)
    ensures BadlyHandedBack(lines, b, ks, erred)
    decreases |s|
  {
    var (r, next) := Next(lines, b, 0);
    ChunkedCall(lines, b, 0, s);
    BadStep(lines, b, 0, s, erred);
    if s == [] { NothingUnread(lines, b, erred); }
    if Completes(lines, s) {
      ks := [0];
    } else {
      var more := BadComesBack(lines, next, After(lines, s), erred || r.Err?);
      ks := [0] + more;
      assert ks[1..] == more;
    }
  }

  ghost predicate HandsBackBadly(lines: LineReader, b: BodyState, ks: seq<nat>) {
    BadlyHandedBack(lines, b, ks, false)
  }

  /** Some calls hand a chunked body's connection back after an error or after its end exactly if its bytes hold the
      end of a coding behind an error, or one that is cut off. */
  lemma BadlyHandedBackIff(lines: LineReader, b: BodyState, s: seq<u8>)
    requires b.framing == Chunked && b.reclaim && b.conn == Some(s)
    ensures (exists ks :: HandsBackBadly(lines, b, ks)) <==> IsBad(lines, s, false)
  {
    if IsBad(lines, s, false) {
      var ks := BadComesBack(lines, b, s, false);
      assert HandsBackBadly(lines, b, ks);
    } else {
      forall ks
        ensures !HandsBackBadly(lines, b, ks)
      {
        if BadlyHandedBack(lines, b, ks, false) { BackMeansBad(lines, b, ks, s, false); }
      }
    }
  }

  /** With any other framing that never happens. */
  lemma {:induction false} OthersAreClean(lines: LineReader, b: BodyState, ks: seq<nat>)
    requires b.framing != Chunked
    ensures !HandsBackBadly(lines, b, ks)
    decreases |ks|
  {
    if ks != [] && CanRead(b, ks[0]) { OthersAreClean(lines, Next(lines, b, ks[0]).1, ks[1..]); }
  }

  /** Calls up to the first error, which is where `bytes` and `text` stop. */
  ghost predicate NoErrors(lines: LineReader, b: BodyState, ks: seq<nat>)
    decreases |ks|
  {
    || ks == []
    || (CanRead(b, ks[0]) && Next(lines, b, ks[0]).0.Ok? && NoErrors(lines, Next(lines, b, ks[0]).1, ks[1..]))
  }

  /** The coding is read to its end without an error, and the connection ends inside its trailers. */
  predicate EndsCutOff(lines: LineReader, s: seq<u8>)
    decreases |s|
  {
    var (line, rest) := SplitLine(s);
    var size := lines.size(line);
    && size.Ok? && size.value <= MAX_CHUNK_SIZE
    && if size.value == 0 then CutOff(lines, rest)
       else |rest| >= size.value + 2 && EndsCutOff(lines, rest[size.value + 2..])
  }

  lemma {:induction false} CutOffIsOk(lines: LineReader, s: seq<u8>)
    requires CutOff(lines, s)
    ensures Trailers(lines, s) == Ok([])
    decreases |s|
  {
    if s != [] { CutOffIsOk(lines, SplitLine(s).1); }
  }

  lemma EndsStep(lines: LineReader, b: BodyState, k: nat, s: seq<u8>)
    requires b.framing == Chunked && b.reclaim && b.conn == Some(s)
    ensures Completes(lines, s) ==> (EndsCutOff(lines, s) <==> SawEnd(lines, b))
    ensures !Completes(lines, s) ==>
            (EndsCutOff(lines, s) <==> !Next(lines, b, k).0.Err? && EndsCutOff(lines, After(lines, s)))
  {
    if CutOff(lines, SplitLine(s).1) { CutOffIsOk(lines, SplitLine(s).1); }
  }

  lemma {:induction false} StopsAtError(lines: LineReader, b: BodyState, ks: seq<nat>, s: seq<u8>)
    requires b.framing == Chunked && b.reclaim && b.conn == Some(s)
    requires NoErrors(lines, b, ks) && BadlyHandedBack(lines, b, ks, false)
    ensures EndsCutOff(lines, s)
    decreases |ks|
  {
    var (r, next) := Next(lines, b, ks[0]);
    ChunkedCall(lines, b, ks[0], s);
    EndsStep(lines, b, ks[0], s);
    if Completes(lines, s) {
      BackWithout(lines, next, ks[1..], false);
    } else {
      StopsAtError(lines, next, ks[1..], After(lines, s));
    }
  }

  lemma {:induction false} CutOffComesBack(lines: LineReader, b: BodyState, s: seq<u8>) returns (ks: seq<nat>)
    requires b.framing == Chunked && b.reclaim && b.conn == Some(s) && EndsCutOff(lines, s)
    ensures NoErrors(lines, b, ks) && BadlyHandedBack(lines, b, ks, false)
    decreases |s|
  {
    var (r, next) := Next(lines, b, 0);
    ChunkedCall(lines, b, 0, s);
    EndsStep(lines, b, 0, s);
    if Completes(lines, s) {
      ks := [0];
    } else {
      var more := CutOffComesBack(lines, next, After(lines, s));
      ks := [0] + more;
      assert ks[1..] == more;
    }
  }

  ghost predicate HandsBackDead(lines: LineReader, b: BodyState, ks: seq<nat>) {
    NoErrors(lines, b, ks) && BadlyHandedBack(lines, b, ks, false)
  }

  /** For callers that stop at the first error it happens exactly if the connection ends inside the trailers. */
  lemma DeadHandedBackIff(lines: LineReader, b: BodyState, s: seq<u8>)
    requires b.framing == Chunked && b.reclaim && b.conn == Some(s)
    ensures (exists ks :: HandsBackDead(lines, b, ks)) <==> EndsCutOff(lines, s)
  {
    if EndsCutOff(lines, s) {
      var ks := CutOffComesBack(lines, b, s);
      assert HandsBackDead(lines, b, ks);
    } else {
      forall ks
        ensures !HandsBackDead(lines, b, ks)
      {
        if HandsBackDead(lines, b, ks) { StopsAtError(lines, b, ks, s); }
      }
    }
  }

  /** A connection that ends right after the last size line is such a one. */
  lemma EndAfterSizeLine(lines: LineReader)
    requires Understands(lines)
    ensures EndsCutOff(lines, SizeLine(0)) && IsBad(lines, SizeLine(0), false)
  {
    SizeLineSplits(0, []);
    assert SizeLine(0) + [] == SizeLine(0);
  }

  /** Any line that is no size, with a whole coding behind it: the connection goes back after an error. */
  lemma EndBehindError(lines: LineReader, line: seq<u8>, rest: seq<u8>)
    requires Understands(lines) && SplitLine(line) == (line, []) && line != [] && line[|line| - 1] == 10
    requires lines.size(line).Err?
    ensures IsBad(lines, line + (END + rest), false)
  {
    EndIsBad(lines, rest);
    BadBehindLine(lines, line, END + rest);
  }

  lemma BadBehindLine(lines: LineReader, line: seq<u8>, behind: seq<u8>)
    requires SplitLine(line) == (line, []) && line != [] && line[|line| - 1] == 10
    requires lines.size(line).Err? && IsBad(lines, behind, true)
    ensures IsBad(lines, line + behind, false)
  {
    LineSplits(line, behind);
    BadBehind(lines, line + behind, false);
  }

  lemma EndIsBad(lines: LineReader, rest: seq<u8>)
    requires Understands(lines)
    ensures IsBad(lines, END + rest, true)
  {
    EndIsZeroLine(rest);
    SizeLineSplits(0, CRLF + rest);
    BlankLineEnds(lines, rest);
  }

  lemma BadBehind(lines: LineReader, s: seq<u8>, erred: bool)
    requires s != [] && lines.size(SplitLine(s).0).Err? && IsBad(lines, SplitLine(s).1, true)
    ensures IsBad(lines, s, erred)
  {}

  // ---- the object -------------------------------------------------------------------------------------

  class Body {
    var conn: Option<seq<u8>>
    var framing: Framing
    var reclaim: bool
    var pool: seq<seq<u8>>
    const lines: LineReader

    function State(): BodyState
      reads this
    {
      BodyState(conn, framing, reclaim, pool)
    }

    constructor (lines: LineReader, bytes: seq<u8>, framing: Framing, reclaim: bool, pool: seq<seq<u8>>)
      ensures State() == BodyState(Some(bytes), framing, reclaim, pool) && this.lines == lines
    {
      this.lines, conn, this.framing, this.reclaim, this.pool := lines, Some(bytes), framing, reclaim, pool;
    }

    method Reclaim()
      modifies this
      ensures State() == Reclaimed(old(State()))
    {
      if reclaim {
        reclaim := false;
        if conn.Some? {
          pool, conn := pool + [conn.value], None;
        }
      }
    }

    /** A read of up to `want` bytes. */
    method Read(want: nat) returns (bytes: seq<u8>)
      requires conn.Some? && want > 0
      modifies this`conn
      ensures conn.Some? && old(conn).value == bytes + conn.value
      ensures if old(conn).value == [] then bytes == [] else 1 <= |bytes| <= want
    {
      var s := conn.value;
      if s == [] { return []; }
      var n: nat :| 1 <= n <= want && n <= |s|;
      bytes, conn := s[..n], Some(s[n..]);
    }

    method ReadLine() returns (line: seq<u8>)
      requires conn.Some?
      modifies this`conn
      ensures conn.Some? && SplitLine(old(conn).value) == (line, conn.value)
    {
      line := [];
      var s := conn.value;
      ghost var all := SplitLine(s);
      assert [] + all.0 == all.0;
      while s != []
        invariant line + SplitLine(s).0 == all.0 && SplitLine(s).1 == all.1 && line + [] == line
        decreases |s|
      {
        var c := s[0];
        Assoc(line, [c], SplitLine(s[1..]).0);
        line, s := line + [c], s[1..];
        if c == 10 { break; }
      }
      conn := Some(s);
    }

    method SkipTrailers() returns (r: Result<(), HttpError>)
      requires conn.Some?
      modifies this`conn
      ensures conn.Some?
      ensures var end := Trailers(lines, old(conn).value); r == if end.Ok? then Ok(()) else Err(end.error)
      ensures conn == Some(AfterTrailers(lines, old(conn).value))
    {
      while true
        invariant conn.Some? && Trailers(lines, conn.value) == Trailers(lines, old(conn).value)
        invariant AfterTrailers(lines, conn.value) == AfterTrailers(lines, old(conn).value)
        decreases |conn.value|
      {
        ghost var before := conn.value;
        var line := ReadLine();
        if line == [] { return Ok(()); }
        var blank := lines.blank(line);
        if blank.Err? { return Err(blank.error); }
        if blank.value { return Ok(()); }
      }
    }

    method NextChunk() returns (r: Reply, ghost k: nat)
      modifies this
      ensures CanRead(old(State()), k)
      ensures (r, State()) == Next(lines, old(State()), k)
    {
      k := 0;
      if conn.None? { return Ok(None), 0; }
      match framing {
        case Finished =>
          k := if conn.value == [] then 0 else 1;
          Reclaim();
          r := Ok(None);
        case Chunked => r := ReadChunked();
        case Length(n) =>
          if n == 0 {
            framing := Finished;
            Reclaim();
            return Ok(None), 0;
          }
          var buf := Read(if n < READ_SIZE then n else READ_SIZE);
          k := |buf|;
          if buf == [] {
            framing, conn := Finished, None;
            return Ok(None), k;
          }
          Parts(buf, conn.value);
          framing := Length(n - |buf|);
          r := Ok(Some(buf));
        case UntilClose =>
          var buf := Read(READ_SIZE);
          k := |buf|;
          if buf == [] {
            framing, conn := Finished, None;
            return Ok(None), k;
          }
          Parts(buf, conn.value);
          r := Ok(Some(buf));
      }
    }

    method ReadChunked() returns (r: Reply)
      requires conn.Some? && framing == Chunked
      modifies this
      ensures (r, State()) == NextChunked(lines, old(State()), old(conn).value)
    {
      var line := ReadLine();
      var size := lines.size(line);
      if size.Err? { return Err(size.error); }
      if size.value > MAX_CHUNK_SIZE { return Err(ChunkTooLarge); }
      if size.value == 0 {
        TrailersLeave(lines, conn.value);
        var end := SkipTrailers();
        if end.Err? { return Err(end.error); }
        framing := Finished;
        Reclaim();
        return Ok(None);
      }
      if |conn.value| < size.value + 2 {
        conn := Some([]);
        return Err(UnexpectedEof);
      }
      r, conn := Ok(Some(conn.value[..size.value])), Some(conn.value[size.value + 2..]);
    }
  }

  /** `read_chunked_body`. */
  method ReadChunkedBody(lines: LineReader, stream: seq<u8>, max: nat)
    returns (r: Result<Option<seq<u8>>, HttpError>, rest: seq<u8>)
    ensures var spec := ReadBody(lines, max, stream, []);
            if spec.Ok? then r == Ok(spec.value.0) && rest == spec.value.1 else r == Err(spec.error)
  {
    var body := [];
    rest := stream;
    while rest != []
      invariant ReadBody(lines, max, rest, body) == ReadBody(lines, max, stream, [])
      decreases |rest|
    {
      var (line, after) := SplitLine(rest);
      var size := lines.size(line);
      rest := after;
      if size.Err? { return Err(size.error), rest; }
      if size.value == 0 {
        var end := Trailers(lines, rest);
        if end.Err? { return Err(end.error), rest; }
        return Ok(Some(body)), end.value;
      }
      if SaturatingSum(|body|, size.value) > max { return Ok(None), rest; }
      if |rest| < size.value + 2 { return Err(UnexpectedEof), rest; }
      body, rest := body + rest[..size.value], rest[size.value + 2..];
    }
    r := Err(UnexpectedEof);
  }

  /** The streaming part of `write_response`. */
  method WriteChunks(chunks: seq<seq<u8>>) returns (out: seq<u8>)
    ensures out == Wire(chunks)
  {
    out := [];
    for i := 0 to |chunks|
      invariant out + Wire(chunks[i..]) == Wire(chunks)
    {
      var chunk, more := chunks[i], chunks[i + 1..];
      assert chunks[i..][0] == chunk && chunks[i..][1..] == more;
      if chunk == [] {
        assert [] + Wire(more) == Wire(more);
        continue;
      }
      Assoc(out, Chunk(chunk), Wire(more));
      Assoc(out, SizeLine(|chunk|), chunk);
      Assoc(out, SizeLine(|chunk|) + chunk, CRLF);
      out := out + (HexText(|chunk|) + CRLF);
      out := out + chunk;
      out := out + CRLF;
    }
    out := out + END;
  }
}
