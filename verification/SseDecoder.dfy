/** The incremental decoder over bytes in pieces of any size (`http/sse.rs`). */
module SseDecoder {
  import opened Wrappers
  import opened Seqs
  import opened Values
  import opened Decimal
  import opened SseEvent
  import opened SseRoundTrip

  /** UTF-8: how text becomes bytes, and how bytes of any kind become text. */
  datatype Codec = Codec(encode: string -> seq<u8>, lossy: seq<u8> -> string)

  const LF: u8 := 10
  const CR: u8 := 13

  ghost predicate Faithful(codec: Codec) {
    && (forall s :: codec.lossy(codec.encode(s)) == s)
    && (forall a, b :: codec.encode(a + b) == codec.encode(a) + codec.encode(b))
    && codec.encode(['\n']) == [LF] && codec.encode(['\r']) == [CR]
    && (forall s :: OneLine(s) ==> LF !in codec.encode(s))
    && (forall s :: !EndsCr(s) ==> !EndsCrByte(codec.encode(s)))
    && (forall b :: LF !in b ==> OneLine(codec.lossy(b)))
  }

  predicate EndsCrByte(line: seq<u8>) {
    line != [] && line[|line| - 1] == CR
  }

  function PopCr(line: seq<u8>): seq<u8> {
    if EndsCrByte(line) then line[..|line| - 1] else line
  }

  /** Where the first line feed is, or the end. */
  function FindLf(buf: seq<u8>): (i: nat)
    ensures i <= |buf| && (forall j :: 0 <= j < i ==> buf[j] != LF) && (i < |buf| ==> buf[i] == LF)
  {
    if buf == [] || buf[0] == LF then 0 else FindLf(buf[1..]) + 1
  }

  /** The state after all complete lines of `buf`, the unfinished line, and the events. */
  function Drain(lossy: seq<u8> -> string, p: Pending, buf: seq<u8>): (Pending, seq<u8>, seq<Event>)
    decreases |buf|
  {
    var i := FindLf(buf);
    if i == |buf| then (p, buf, []) else
      var (p', first) := OnLine(p, lossy(PopCr(buf[..i])));
      var (q, rest, more) := Drain(lossy, p', buf[i + 1..]);
      (q, rest, first + more)
  }

  lemma FindLfConcat(a: seq<u8>, b: seq<u8>)
    requires LF !in a
    ensures FindLf(a + [LF] + b) == |a|
  {
    var s := a + [LF] + b;
    assert s[|a|] == LF && forall j :: 0 <= j < |a| ==> s[j] == a[j];
  }

  lemma DrainLine(lossy: seq<u8> -> string, p: Pending, line: seq<u8>, rest: seq<u8>)
    requires LF !in line
    ensures var (p', first) := OnLine(p, lossy(PopCr(line))); var (q, left, more) := Drain(lossy, p', rest);
            Drain(lossy, p, line + [LF] + rest) == (q, left, first + more)
  {
    var s := line + [LF] + rest;
    FindLfConcat(line, rest);
    assert s[..|line|] == line && s[|line| + 1..] == rest;
  }

  /** Draining a part first, then the rest with what was left over, is draining it all. */
  lemma {:induction false} DrainConcat(lossy: seq<u8> -> string, p: Pending, a: seq<u8>, b: seq<u8>)
    ensures var (q, left, first) := Drain(lossy, p, a); var (r, rest, more) := Drain(lossy, q, left + b);
            Drain(lossy, p, a + b) == (r, rest, first + more)
    decreases |a|
  {
    var i := FindLf(a);
    if i == |a| {
      var all := Drain(lossy, p, a + b);
      assert [] + all.2 == all.2;
    } else {
      var line, tail := a[..i], a[i + 1..];
      assert a == line + [LF] + tail && a + b == line + [LF] + (tail + b);
      DrainLine(lossy, p, line, tail);
      DrainLine(lossy, p, line, tail + b);
      var (p', first) := OnLine(p, lossy(PopCr(line)));
      DrainConcat(lossy, p', tail, b);
      var (q, left, more) := Drain(lossy, p', tail);
      Assoc(first, more, Drain(lossy, q, left + b).2);
    }
  }

  lemma {:induction false} LeftoverHasNoLf(lossy: seq<u8> -> string, p: Pending, buf: seq<u8>)
    ensures LF !in Drain(lossy, p, buf).1
    decreases |buf|
  {
    var i := FindLf(buf);
    if i < |buf| { LeftoverHasNoLf(lossy, OnLine(p, lossy(PopCr(buf[..i]))).0, buf[i + 1..]); }
  }

  // ---- pushing ------------------------------------------------------------------------------------

  function PushAll(lossy: seq<u8> -> string, p: Pending, buf: seq<u8>,
                   chunks: seq<seq<u8>>): (Pending, seq<u8>, seq<Event>)
    decreases |chunks|
  {
    if chunks == [] then (p, buf, []) else
      var (q, left, first) := Drain(lossy, p, buf + chunks[0]);
      var (r, rest, more) := PushAll(lossy, q, left, chunks[1..]);
      (r, rest, first + more)
  }

  function Concat(chunks: seq<seq<u8>>): seq<u8> {
    if chunks == [] then [] else chunks[0] + Concat(chunks[1..])
  }

  /** However the bytes are cut into pushes, even inside a character, the events and the state are the same. */
  lemma {:induction false} CuttingIsInvisible(lossy: seq<u8> -> string, p: Pending, buf: seq<u8>, chunks: seq<seq<u8>>)
    requires LF !in buf
    ensures PushAll(lossy, p, buf, chunks) == Drain(lossy, p, buf + Concat(chunks))
    decreases |chunks|
  {
    if chunks == [] {
      assert buf + [] == buf;
    } else {
      var (q, left, first) := Drain(lossy, p, buf + chunks[0]);
      LeftoverHasNoLf(lossy, p, buf + chunks[0]);
      CuttingIsInvisible(lossy, q, left, chunks[1..]);
      DrainConcat(lossy, p, buf + chunks[0], Concat(chunks[1..]));
      Assoc(buf, chunks[0], Concat(chunks[1..]));
    }
  }

  // ---- from text ------------------------------------------------------------------------------------

  lemma LineBytes(codec: Codec, line: string)
    requires Faithful(codec) && OneLine(line)
    ensures LF !in codec.encode(line) && codec.lossy(PopCr(codec.encode(line))) == StripCr(line)
  {
    if EndsCr(line) {
      var body := line[..|line| - 1];
      assert line == body + ['\r'];
      var bytes := codec.encode(body);
      assert codec.encode(line) == bytes + [CR];
      assert (bytes + [CR])[..|bytes|] == bytes;
    }
  }

  lemma {:induction false} DrainLines(codec: Codec, p: Pending, lines: seq<string>)
    requires Faithful(codec) && AreLines(lines)
    ensures var (q, events) := OnLines(p, StripAll(lines));
            Drain(codec.lossy, p, codec.encode(Unlines(lines))) == (q, [], events)
    decreases |lines|
  {
    if lines == [] {
      EmptyEncodes(codec);
    } else {
      var line, rest := lines[0], Unlines(lines[1..]);
      assert codec.encode(line + ['\n']) == codec.encode(line) + [LF];
      assert codec.encode(Unlines(lines)) == codec.encode(line) + [LF] + codec.encode(rest);
      LineBytes(codec, line);
      DrainLine(codec.lossy, p, codec.encode(line), codec.encode(rest));
      assert StripAll(lines)[0] == StripCr(line) && StripAll(lines)[1..] == StripAll(lines[1..]);
      DrainLines(codec, OnLine(p, StripCr(line)).0, lines[1..]);
    }
  }

  lemma EmptyEncodes(codec: Codec)
    requires Faithful(codec)
    ensures codec.encode([]) == []
  {
    var none: string := [];
    assert none + none == none;
    assert codec.encode(none + none) == codec.encode(none) + codec.encode(none);
  }

  predicate AreLines(lines: seq<string>) {
    forall i :: 0 <= i < |lines| ==> OneLine(lines[i])
  }

  lemma AreLinesConcat(a: seq<string>, b: seq<string>)
    requires AreLines(a) && AreLines(b)
    ensures AreLines(a + b)
  {}

  lemma {:induction false} FieldLinesAreLines(name: string, values: seq<string>)
    requires OneLine(name) && AreLines(values)
    ensures AreLines(FieldLines(name, values))
  {
    if values != [] {
      FieldLinesAreLines(name, values[1..]);
      AreLinesConcat([FieldLine(name, values[0])], FieldLines(name, values[1..]));
    }
  }

  lemma FrameLinesAreLines(e: Event)
    requires SingleLines(e)
    ensures AreLines(FrameLines(e))
  {
    SplitJoins(e.data);
    FieldLinesAreLines(DATA, SplitLines(e.data));
    if e.comment.Some? {
      SplitJoins(e.comment.value);
      FieldLinesAreLines([], SplitLines(e.comment.value));
    }
    var c, ev, id := CommentLines(e), OptionLine(EVENT, e.event), OptionLine(ID, e.id);
    var r, d := RetryLine(e), DataLines(e);
    AreLinesConcat(c, ev);
    AreLinesConcat(c + ev, id);
    AreLinesConcat(c + ev + id, r);
    AreLinesConcat(c + ev + id + r, d);
    AreLinesConcat(c + ev + id + r + d, [[]]);
  }

  function Frames(es: seq<Event>): string {
    if es == [] then [] else ToFrame(es[0]) + Frames(es[1..])
  }

  lemma FrameDrains(codec: Codec, e: Event)
    requires Faithful(codec) && SingleLines(e)
    ensures Drain(codec.lossy, FRESH, codec.encode(ToFrame(e))) == (FRESH, [], [Canon(e)])
  {
    FrameLinesAreLines(e);
    DrainLines(codec, FRESH, FrameLines(e));
    FrameReads(e);
  }

  // ---- any events ---------------------------------------------------------------------------------------

  /** The lines that the texts really make, split at the line feeds inside them. */
  function Flat(texts: seq<string>): seq<string> {
    if texts == [] then [] else SplitLines(texts[0]) + Flat(texts[1..])
  }

  lemma {:induction false} FlatAreLines(texts: seq<string>)
    ensures AreLines(Flat(texts)) && Unlines(Flat(texts)) == Unlines(texts)
  {
    if texts != [] {
      var first, rest := SplitLines(texts[0]), Flat(texts[1..]);
      FlatAreLines(texts[1..]);
      SplitJoins(texts[0]);
      UnlinesIsJoin(first);
      UnlinesConcat(first, rest);
      AreLinesConcat(first, rest);
    }
  }

  lemma {:induction false} FlatConcat(a: seq<string>, b: seq<string>)
    ensures Flat(a + b) == Flat(a) + Flat(b)
  {
    if a == [] {
      assert a + b == b;
    } else {
      assert (a + b)[0] == a[0] && (a + b)[1..] == a[1..] + b;
      FlatConcat(a[1..], b);
      Assoc(SplitLines(a[0]), Flat(a[1..]), Flat(b));
    }
  }

  /** What the decoder makes of one frame. */
  function Decoded(e: Event): seq<Event> {
    OnLines(FRESH, StripAll(Flat(FrameLines(e)))).1
  }

  /** Between two events the decoder holds nothing. */
  predicate Settled(p: Pending) {
    p.dirty || p == FRESH
  }

  lemma {:induction false} StaysSettled(p: Pending, lines: seq<string>)
    requires Settled(p)
    ensures Settled(OnLines(p, lines).0)
    decreases |lines|
  {
    if lines != [] { StaysSettled(OnLine(p, lines[0]).0, lines[1..]); }
  }

  lemma {:induction false} SentByTheEnd(p: Pending, lines: seq<string>)
    requires Settled(p) && (p.dirty || (lines != [] && lines[0] != []))
    ensures OnLines(p, lines + [[]]).0 == FRESH && OnLines(p, lines + [[]]).1 != []
  {
    StaysSettled(p, lines);
    OnLinesConcat(p, lines, [[]]);
    var q := OnLines(p, lines).0;
    if q.dirty { BlankLine(q); } else { SomeSent(p, lines); LoneBlank(); }
  }

  lemma LoneBlank()
    ensures OnLines(FRESH, [[]]) == (FRESH, [])
  {
    var lines: seq<string>, none: seq<Event> := [[]], [];
    assert lines[1..] == [] && none + none == none;
  }

  lemma {:induction false} SomeSent(p: Pending, lines: seq<string>)
    requires p.dirty || (lines != [] && lines[0] != [])
    ensures OnLines(p, lines).0.dirty || OnLines(p, lines).1 != []
    decreases |lines|
  {
    if lines != [] && lines[0] != [] { SomeSent(OnLine(p, lines[0]).0, lines[1..]); }
  }

  lemma FirstLineOfField(name: string, value: string)
    requires OneLine(name)
    ensures StripCr(SplitLines(FieldLine(name, value))[0]) != []
  {
    HeadOfSplit(name + [':', ' '], value);
    assert FieldLine(name, value) == (name + [':', ' ']) + value;
    var head := SplitLines(FieldLine(name, value))[0];
    assert head[|name|] == ':';
    if |head| == |name| + 2 { assert head[|name| + 1] == ' '; }
  }

  lemma {:induction false} HeadOfSplit(a: string, b: string)
    requires OneLine(a)
    ensures a <= SplitLines(a + b)[0]
  {
    if a != [] {
      assert (a + b)[0] == a[0] && (a + b)[1..] == a[1..] + b;
      HeadTail(a);
      HeadOfSplit(a[1..], b);
      var ls := SplitLines(a[1..] + b);
      assert a[0] in a && SplitLines(a + b)[0] == [a[0]] + ls[0];
    }
  }

  /** Before its blank line a frame has a line, and the first one is a field. */
  lemma FieldsFirst(e: Event) returns (fields: seq<string>)
    ensures FrameLines(e) == fields + [[]] && fields != [] && StripCr(SplitLines(fields[0])[0]) != []
  {
    var c, ev, id := CommentLines(e), OptionLine(EVENT, e.event), OptionLine(ID, e.id);
    var r, d := RetryLine(e), DataLines(e);
    fields := c + ev + id + r + d;
    if e.comment.Some? {
      FirstLineOfField([], SplitLines(e.comment.value)[0]);
    } else if e.event.Some? {
      FirstLineOfField(EVENT, e.event.value);
    } else if e.id.Some? {
      FirstLineOfField(ID, e.id.value);
    } else if e.retry.Some? {
      FirstLineOfField(RETRY, IntText(e.retry.value));
    } else {
      FirstLineOfField(DATA, SplitLines(e.data)[0]);
    }
  }

  /** Every frame, whatever is in it, is decoded on its own, to at least one event. */
  lemma AnyFrameDrains(codec: Codec, e: Event)
    requires Faithful(codec)
    ensures Drain(codec.lossy, FRESH, codec.encode(ToFrame(e))) == (FRESH, [], Decoded(e)) && Decoded(e) != []
  {
    var fields := FieldsFirst(e);
    FlatAreLines(FrameLines(e));
    DrainLines(codec, FRESH, Flat(FrameLines(e)));
    FlatConcat(fields, [[]]);
    BlankFlat();
    StripConcat(Flat(fields), [[]]);
    StripOne([]);
    assert StripAll(Flat(fields))[0] == StripCr(SplitLines(fields[0])[0]);
    SentByTheEnd(FRESH, StripAll(Flat(fields)));
  }

  lemma BlankFlat()
    ensures Flat([[]]) == [[]]
  {
    var lines: seq<string> := [[]];
    assert lines[1..] == [] && SplitLines([]) == lines;
  }

  function DecodedAll(es: seq<Event>): seq<Event> {
    if es == [] then [] else Decoded(es[0]) + DecodedAll(es[1..])
  }

  lemma {:induction false} FramesDrain(codec: Codec, es: seq<Event>)
    requires Faithful(codec)
    ensures Drain(codec.lossy, FRESH, codec.encode(Frames(es))) == (FRESH, [], DecodedAll(es))
    decreases |es|
  {
    if es == [] {
      EmptyEncodes(codec);
    } else {
      AnyFrameDrains(codec, es[0]);
      FramesDrain(codec, es[1..]);
      var a, b := codec.encode(ToFrame(es[0])), codec.encode(Frames(es[1..]));
      assert codec.encode(Frames(es)) == a + b;
      DrainConcat(codec.lossy, FRESH, a, b);
      assert [] + b == b;
    }
  }

  // ---- when the event comes back unchanged ------------------------------------------------------------

  lemma {:induction false} ColonParts(s: string)
    requires OneLine(s) && SplitColon(s).Some?
    ensures OneLine(SplitColon(s).value.1)
  {
    if s[0] != ':' { ColonParts(s[1..]); }
  }

  lemma FieldKeepsSingle(cur: Event, line: string)
    requires SingleLines(cur) && OneLine(line)
    ensures SingleLines(Field(cur, line))
  {
    if SplitColon(line).Some? { ColonParts(line); }
  }

  /** Whatever the bytes, no event comes out with a line feed in its type or id. */
  lemma {:induction false} DecodedIsSingle(codec: Codec, p: Pending, buf: seq<u8>)
    requires Faithful(codec) && SingleLines(p.cur)
    ensures forall i :: 0 <= i < |Drain(codec.lossy, p, buf).2| ==> SingleLines(Drain(codec.lossy, p, buf).2[i])
    decreases |buf|
  {
    var i := FindLf(buf);
    if i < |buf| {
      var line := codec.lossy(PopCr(buf[..i]));
      assert OneLine(line);
      FieldKeepsSingle(p.cur, line);
      DecodedIsSingle(codec, OnLine(p, line).0, buf[i + 1..]);
    }
  }

  lemma NotSingleIsLost(codec: Codec, bytes: seq<u8>, e: Event)
    requires Faithful(codec) && !SingleLines(e)
    ensures Drain(codec.lossy, FRESH, bytes).2 != [e]
  {
    DecodedIsSingle(codec, FRESH, bytes);
    var events := Drain(codec.lossy, FRESH, bytes).2;
    assert |events| > 0 ==> SingleLines(events[0]);
  }

  /** An event comes back from its frame as it was exactly when it is clean. */
  lemma ExactRoundTrip(codec: Codec, e: Event)
    requires Faithful(codec)
    ensures Drain(codec.lossy, FRESH, codec.encode(ToFrame(e))).2 == [e] <==> Clean(e)
  {
    if SingleLines(e) {
      FrameDrains(codec, e);
      CanonFixes(e);
    } else {
      NotSingleIsLost(codec, codec.encode(ToFrame(e)), e);
    }
  }

  lemma DecodedIff(codec: Codec, e: Event)
    requires Faithful(codec)
    ensures Decoded(e) == [e] <==> Clean(e)
    ensures Decoded(e) != []
  {
    AnyFrameDrains(codec, e);
    ExactRoundTrip(codec, e);
  }

  lemma {:induction false} DecodedAllIff(codec: Codec, es: seq<Event>)
    requires Faithful(codec)
    ensures |DecodedAll(es)| >= |es|
    ensures DecodedAll(es) == es <==> AllClean(es)
    decreases |es|
  {
    if es != [] {
      var rest := es[1..];
      DecodedIff(codec, es[0]);
      DecodedAllIff(codec, rest);
      HeadTail(es);
      AllCleanStep(es);
      if DecodedAll(es) == es { OneEach(Decoded(es[0]), DecodedAll(rest), es[0], rest); }
    }
  }

  predicate AllClean(es: seq<Event>) {
    forall i :: 0 <= i < |es| ==> Clean(es[i])
  }

  lemma AllCleanStep(es: seq<Event>)
    requires es != []
    ensures AllClean(es) <==> Clean(es[0]) && AllClean(es[1..])
  {
    var rest := es[1..];
    if Clean(es[0]) && AllClean(rest) {
      forall i | 0 <= i < |es|
        ensures Clean(es[i])
      {
        if i > 0 { assert rest[i - 1] == es[i]; }
      }
    }
  }

  lemma OneEach(first: seq<Event>, more: seq<Event>, e: Event, rest: seq<Event>)
    requires first != [] && |more| >= |rest| && first + more == [e] + rest
    ensures first == [e] && more == rest
  {
    assert |first| == 1;
    assert (first + more)[0] == first[0] && (first + more)[1..] == more && ([e] + rest)[1..] == rest;
  }

  /** Any events, sent as frames and received in pieces of any size, are decoded frame by frame, in order; and
      they arrive as they were, each once, exactly if every one of them is clean. */
  lemma EventsArrive(codec: Codec, es: seq<Event>, chunks: seq<seq<u8>>)
    requires Faithful(codec) && Concat(chunks) == codec.encode(Frames(es))
    ensures PushAll(codec.lossy, FRESH, [], chunks) == (FRESH, [], DecodedAll(es))
    ensures PushAll(codec.lossy, FRESH, [], chunks).2 == es <==> AllClean(es)
  {
    CuttingIsInvisible(codec.lossy, FRESH, [], chunks);
    FramesDrain(codec, es);
    assert [] + Concat(chunks) == Concat(chunks);
    DecodedAllIff(codec, es);
  }

  // ---- the object -------------------------------------------------------------------------------------

  type Drained = (Pending, seq<u8>, seq<Event>)

  /** What is done, followed by what draining the rest gives, is what draining it all gives. */
  ghost predicate Leads(all: Drained, events: seq<Event>, rest: Drained) {
    rest.0 == all.0 && rest.1 == all.1 && events + rest.2 == all.2
  }

  lemma LeadsOn(all: Drained, events: seq<Event>, rest: Drained, done: seq<Event>, next: Drained)
    requires Leads(all, events, rest) && rest == (next.0, next.1, done + next.2)
    ensures Leads(all, events + done, next)
  {
    Assoc(events, done, next.2);
  }

  lemma DrainStep(lossy: seq<u8> -> string, p: Pending, buf: seq<u8>, q: Pending, done: seq<Event>)
    requires FindLf(buf) < |buf| && (q, done) == OnLine(p, lossy(PopCr(buf[..FindLf(buf)])))
    ensures var next := Drain(lossy, q, buf[FindLf(buf) + 1..]); Drain(lossy, p, buf) == (next.0, next.1, done + next.2)
  {}

  lemma Nothing(events: seq<Event>)
    ensures [] + events == events && events + [] == events
  {}

  class Decoder {
    var buf: seq<u8>
    var cur: Event
    var dirty: bool
    const lossy: seq<u8> -> string

    constructor (lossy: seq<u8> -> string)
      ensures buf == [] && Pending(cur, dirty) == FRESH && this.lossy == lossy
    {
      buf, cur, dirty := [], BLANK, false;
      this.lossy := lossy;
    }

    method Push(bytes: seq<u8>) returns (events: seq<Event>)
      modifies this
      ensures (Pending(cur, dirty), buf, events) == Drain(lossy, Pending(old(cur), old(dirty)), old(buf) + bytes)
    {
      buf := buf + bytes;
      events := [];
      ghost var all := Drain(lossy, Pending(cur, dirty), buf);
      var nl := Position();
      Nothing(all.2);
      while nl < |buf|
        invariant nl == FindLf(buf)
        invariant Leads(all, events, Drain(lossy, Pending(cur, dirty), buf))
        decreases |buf|
      {
        ghost var p, was := Pending(cur, dirty), buf;
        var done := TakeLine(nl);
        DrainStep(lossy, p, was, Pending(cur, dirty), done);
        LeadsOn(all, events, Drain(lossy, p, was), done, Drain(lossy, Pending(cur, dirty), buf));
        events := events + done;
        nl := Position();
      }
      Nothing(events);
    }

    /** Takes the line that ends at `nl` out of the buffer; a blank one sends the event off. */
    method TakeLine(nl: nat) returns (done: seq<Event>)
      requires nl < |buf|
      modifies this
      ensures (Pending(cur, dirty), done) == OnLine(Pending(old(cur), old(dirty)), lossy(PopCr(old(buf)[..nl])))
      ensures buf == old(buf)[nl + 1..]
    {
      var line := buf[..nl];
      buf := buf[nl + 1..];
      if line != [] && line[|line| - 1] == CR { line := line[..|line| - 1]; }
      var text := lossy(line);
      if text != [] {
        cur, dirty := Field(cur, text), true;
        return [];
      }
      if !dirty { return []; }
      if cur.data != [] && cur.data[|cur.data| - 1] == '\n' {
        cur := cur.(data := cur.data[..|cur.data| - 1]);
      }
      done, cur, dirty := [cur], BLANK, false;
    }

    method Position() returns (i: nat)
      ensures i == FindLf(buf)
    {
      i := 0;
      while i < |buf| && buf[i] != LF
        invariant i <= |buf| && i <= FindLf(buf)
      {
        i := i + 1;
      }
    }
  }

  /** `to_frame`: pushes field after field. */
  method WriteFrame(e: Event) returns (out: string)
    ensures out == ToFrame(e)
  {
    out := [];
    ghost var none: seq<string> := [];
    if e.comment.Some? {
      out := PushFields(out, none, [], SplitLines(e.comment.value));
      assert none + CommentLines(e) == CommentLines(e);
    }
    ghost var lines := CommentLines(e);
    if e.event.Some? { out := PushField(out, lines, EVENT, e.event.value); }
    lines := Grown(lines, OptionLine(EVENT, e.event));
    if e.id.Some? { out := PushField(out, lines, ID, e.id.value); }
    lines := Grown(lines, OptionLine(ID, e.id));
    if e.retry.Some? { out := PushField(out, lines, RETRY, IntText(e.retry.value)); }
    lines := Grown(lines, RetryLine(e));
    if e.data != [] || (e.comment.None? && e.event.None?) { out := PushFields(out, lines, DATA, SplitLines(e.data)); }
    lines := Grown(lines, DataLines(e));
    UnlinesConcat(lines, [[]]);
    out := out + ['\n'];
    EmptyLine();
  }

  lemma EmptyLine()
    ensures Unlines([[]]) == ['\n']
  {
    var lines: seq<string> := [[]];
    assert lines[1..] == [];
  }

  ghost function Grown(a: seq<string>, b: seq<string>): (r: seq<string>)
    ensures r == a + b && (b == [] ==> r == a)
  {
    a + b
  }

  lemma {:induction false} UnlinesConcat(a: seq<string>, b: seq<string>)
    ensures Unlines(a + b) == Unlines(a) + Unlines(b)
  {
    if a == [] {
      assert a + b == b && [] + Unlines(b) == Unlines(b);
    } else {
      assert (a + b)[0] == a[0] && (a + b)[1..] == a[1..] + b;
      UnlinesConcat(a[1..], b);
      Assoc(a[0] + ['\n'], Unlines(a[1..]), Unlines(b));
    }
  }

  method PushField(out0: string, ghost lines: seq<string>, name: string, value: string) returns (out: string)
    requires out0 == Unlines(lines)
    ensures out == Unlines(lines + [FieldLine(name, value)])
  {
    UnlinesConcat(lines, [FieldLine(name, value)]);
    assert Unlines([FieldLine(name, value)]) == FieldLine(name, value) + ['\n'] + Unlines([]);
    out := out0 + (name + ([':', ' '] + value));
    out := out + ['\n'];
  }

  method PushFields(out0: string, ghost lines: seq<string>, name: string, values: seq<string>) returns (out: string)
    requires out0 == Unlines(lines)
    ensures out == Unlines(lines + FieldLines(name, values))
  {
    out := out0;
    for i := 0 to |values|
      invariant out + Unlines(FieldLines(name, values[i..])) == Unlines(lines) + Unlines(FieldLines(name, values))
    {
      var line := FieldLine(name, values[i]);
      assert values[i..][0] == values[i] && values[i..][1..] == values[i + 1..];
      assert FieldLines(name, values[i..])[1..] == FieldLines(name, values[i + 1..]);
      Assoc(out, line + ['\n'], Unlines(FieldLines(name, values[i + 1..])));
      out := out + (line + ['\n']);
    }
    assert values[|values|..] == [] && out + [] == out;
    UnlinesConcat(lines, FieldLines(name, values));
  }
}
