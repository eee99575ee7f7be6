/** The read loop of `ws/conn.rs`: reassembly of fragmented messages, pongs, and the message cap. */
module WsReassembly {
  import opened Wrappers
  import opened Seqs
  import opened Values
  import opened WsFrame

  /** A message for the application, before text is decoded from UTF-8. */
  datatype Message = Message(opcode: Opcode, payload: seq<u8>)

  datatype Reply = PongReply(payload: seq<u8>) | CloseReply

  /** A message of which only the first fragments have come. */
  type Partial = Option<Message>

  /** What the loop has passed on and queued, the fragment it holds, and whether it goes on. */
  datatype Loop = Loop(messages: seq<Message>, replies: seq<Reply>, partial: Partial, running: bool)

  const START := Loop([], [], None, true)

  function Step(cap: Option<nat>, l: Loop, f: Frame): Loop {
    match f.opcode
    case Ping => l.(replies := l.replies + [PongReply(f.payload)])
    case Pong => l
    case Close => l.(replies := l.replies + [CloseReply], running := false)
    case Continuation =>
      if l.partial.None? then l else
        var m := l.partial.value.(payload := l.partial.value.payload + f.payload);
        if Exceeds(cap, |m.payload|) then l.(partial := Some(m), running := false)
        else if f.fin then l.(messages := l.messages + [m], partial := None)
        else l.(partial := Some(m))
    case _ =>
      if !f.fin then l.(partial := Some(Message(f.opcode, f.payload)))
      else if Exceeds(cap, |f.payload|) then l.(running := false)
      else l.(messages := l.messages + [Message(f.opcode, f.payload)])
  }

  /** The loop over the frames that arrive, until it stops or they end. */
  function Feed(cap: Option<nat>, l: Loop, frames: seq<Frame>): Loop
    decreases |frames|
  {
    if frames == [] || !l.running then l else Feed(cap, Step(cap, l, frames[0]), frames[1..])
  }

  lemma {:induction false} FeedConcat(cap: Option<nat>, l: Loop, a: seq<Frame>, b: seq<Frame>)
    ensures Feed(cap, l, a + b) == Feed(cap, Feed(cap, l, a), b)
    decreases |a|
  {
    if a == [] {
      assert a + b == b;
    } else if l.running {
      assert (a + b)[0] == a[0] && (a + b)[1..] == a[1..] + b;
      FeedConcat(cap, Step(cap, l, a[0]), a[1..], b);
    }
  }

  // ---- the cap --------------------------------------------------------------------------------

  predicate WithinCap(cap: Option<nat>, ms: seq<Message>) {
    forall i :: 0 <= i < |ms| ==> Allows(cap, |ms[i].payload|)
  }

  /** Whatever frames arrive, no message over the cap is passed on. */
  lemma {:induction false} NeverOverCap(cap: Option<nat>, l: Loop, frames: seq<Frame>)
    requires WithinCap(cap, l.messages)
    ensures WithinCap(cap, Feed(cap, l, frames).messages)
    decreases |frames|
  {
    if frames != [] && l.running { NeverOverCap(cap, Step(cap, l, frames[0]), frames[1..]); }
  }

  // ---- the end ----------------------------------------------------------------------------------

  /** A close is answered with a close, and ends the loop: whatever comes after it is not looked at. */
  lemma CloseEnds(cap: Option<nat>, l: Loop, before: seq<Frame>, close: Frame, after: seq<Frame>)
    requires close.opcode == Close && Feed(cap, l, before).running
    ensures var r := Feed(cap, l, before + [close] + after); var b := Feed(cap, l, before);
            r == b.(replies := b.replies + [CloseReply], running := false)
  {
    var b := Feed(cap, l, before);
    FeedConcat(cap, l, before + [close], after);
    FeedConcat(cap, l, before, [close]);
    assert [close][1..] == [] && Feed(cap, b, [close]) == Step(cap, b, close);
  }

  /** A fragment that continues nothing is dropped, and a message that begins puts an unfinished one aside. */
  lemma StrayFragments(cap: Option<nat>, l: Loop, f: Frame)
    ensures f.opcode == Continuation && l.partial.None? ==> Step(cap, l, f) == l
    ensures (f.opcode == Text || f.opcode == Binary) && !f.fin ==>
            Step(cap, l, f) == l.(partial := Some(Message(f.opcode, f.payload)))
    ensures (f.opcode == Text || f.opcode == Binary) && f.fin ==> Step(cap, l, f).partial == l.partial
  {}

  // ---- control frames ---------------------------------------------------------------------------

  predicate IsControl(f: Frame) {
    f.opcode == Ping || f.opcode == Pong || f.opcode == Close
  }

  function DataFrames(frames: seq<Frame>): seq<Frame> {
    if frames == [] then []
    else (if IsControl(frames[0]) then [] else [frames[0]]) + DataFrames(frames[1..])
  }

  /** One pong for each ping, with its payload, in order. */
  function Pongs(frames: seq<Frame>): seq<Reply> {
    if frames == [] then []
    else (if frames[0].opcode == Ping then [PongReply(frames[0].payload)] else []) + Pongs(frames[1..])
  }

  predicate NoClose(frames: seq<Frame>) {
    forall i :: 0 <= i < |frames| ==> frames[i].opcode != Close
  }

  /** Pings and pongs, wherever they come, change nothing about the messages. */
  lemma {:induction false} ControlsAreInvisible(cap: Option<nat>, l: Loop, quiet: Loop, frames: seq<Frame>)
    requires NoClose(frames) && quiet == l.(replies := quiet.replies)
    ensures var r := Feed(cap, l, frames); var q := Feed(cap, quiet, DataFrames(frames));
            q.messages == r.messages && q.partial == r.partial && q.running == r.running
    decreases |frames|
  {
    if frames != [] && l.running {
      var data := DataFrames(frames[1..]);
      if IsControl(frames[0]) {
        assert [] + data == data;
        ControlsAreInvisible(cap, Step(cap, l, frames[0]), quiet, frames[1..]);
      } else {
        assert ([frames[0]] + data)[1..] == data;
        ControlsAreInvisible(cap, Step(cap, l, frames[0]), Step(cap, quiet, frames[0]), frames[1..]);
      }
    }
  }

  /** As long as the loop runs, every ping is answered once, in order. */
  lemma {:induction false} EveryPingAnswered(cap: Option<nat>, l: Loop, frames: seq<Frame>)
    requires NoClose(frames) && Feed(cap, l, frames).running
    ensures Feed(cap, l, frames).replies == l.replies + Pongs(frames)
    decreases |frames|
  {
    if frames != [] {
      EveryPingAnswered(cap, Step(cap, l, frames[0]), frames[1..]);
      if frames[0].opcode == Ping {
        Assoc(l.replies, [PongReply(frames[0].payload)], Pongs(frames[1..]));
      } else {
        assert [] + Pongs(frames[1..]) == Pongs(frames[1..]);
      }
    }
  }

  // ---- fragmentation -----------------------------------------------------------------------------

  /** A message and the pieces it is cut into; each piece goes in one frame. */
  datatype Cut = Cut(opcode: Opcode, pieces: seq<seq<u8>>)

  predicate Legal(c: Cut) {
    c.pieces != [] && (c.opcode == Text || c.opcode == Binary)
  }

  function Join(pieces: seq<seq<u8>>): seq<u8> {
    if pieces == [] then [] else pieces[0] + Join(pieces[1..])
  }

  function Whole(c: Cut): Message {
    Message(c.opcode, Join(c.pieces))
  }

  function Continuations(pieces: seq<seq<u8>>): seq<Frame> {
    if pieces == [] then [] else [Frame(|pieces| == 1, Continuation, pieces[0])] + Continuations(pieces[1..])
  }

  function FramesOf(c: Cut): seq<Frame>
    requires c.pieces != []
  {
    [Frame(|c.pieces| == 1, c.opcode, c.pieces[0])] + Continuations(c.pieces[1..])
  }

  function AllFrames(cuts: seq<Cut>): seq<Frame>
    requires forall i :: 0 <= i < |cuts| ==> Legal(cuts[i])
  {
    if cuts == [] then [] else
      assert Legal(cuts[0]);
      FramesOf(cuts[0]) + AllFrames(cuts[1..])
  }

  function Wholes(cuts: seq<Cut>): seq<Message> {
    if cuts == [] then [] else [Whole(cuts[0])] + Wholes(cuts[1..])
  }

  /** The messages up to the first one over the cap. */
  function UpToCap(cap: Option<nat>, ms: seq<Message>): seq<Message> {
    if ms == [] || !Allows(cap, |ms[0].payload|) then [] else [ms[0]] + UpToCap(cap, ms[1..])
  }

  /** Continuations complete the message they belong to, or stop the loop if it grows over the cap. */
  lemma {:induction false} ContinuationsComplete(cap: Option<nat>, l: Loop, m: Message, pieces: seq<seq<u8>>)
    requires l.running && l.partial == Some(m) && pieces != []
    ensures var r := Feed(cap, l, Continuations(pieces)); var all := m.(payload := m.payload + Join(pieces));
            && r.running == Allows(cap, |all.payload|)
            && (r.running ==> r == l.(messages := l.messages + [all], partial := None))
            && (!r.running ==> r.messages == l.messages)
    decreases |pieces|
  {
    var f := Frame(|pieces| == 1, Continuation, pieces[0]);
    var more := m.(payload := m.payload + pieces[0]);
    var rest := Continuations(pieces[1..]);
    assert ([f] + rest)[1..] == rest;
    var next := Step(cap, l, f);
    Assoc(m.payload, pieces[0], Join(pieces[1..]));
    if |pieces| == 1 {
      assert pieces[1..] == [];
      assert more.payload + [] == more.payload;
    } else if next.running {
      ContinuationsComplete(cap, next, more, pieces[1..]);
    }
  }

  lemma OneMessage(cap: Option<nat>, l: Loop, c: Cut)
    requires l.running && Legal(c)
    ensures var r := Feed(cap, l, FramesOf(c));
            && r.running == Allows(cap, |Whole(c).payload|)
            && (r.running ==> r.messages == l.messages + [Whole(c)] && (l.partial == None ==> r.partial == None))
            && (!r.running ==> r.messages == l.messages)
  {
    var f := Frame(|c.pieces| == 1, c.opcode, c.pieces[0]);
    var rest := Continuations(c.pieces[1..]);
    assert ([f] + rest)[1..] == rest;
    if |c.pieces| == 1 {
      assert c.pieces[1..] == [];
      assert Join(c.pieces) == c.pieces[0] + Join([]) == c.pieces[0];
    } else {
      ContinuationsComplete(cap, Step(cap, l, f), Message(c.opcode, c.pieces[0]), c.pieces[1..]);
    }
  }

  lemma {:induction false} Stays(cap: Option<nat>, l: Loop, frames: seq<Frame>)
    requires !l.running
    ensures Feed(cap, l, frames) == l
  {}

  lemma {:induction false} Reassembles(cap: Option<nat>, l: Loop, cuts: seq<Cut>)
    requires l.running && forall i :: 0 <= i < |cuts| ==> Legal(cuts[i])
    ensures var r := Feed(cap, l, AllFrames(cuts));
            && r.messages == l.messages + UpToCap(cap, Wholes(cuts))
            && (r.running <==> WithinCap(cap, Wholes(cuts)))
    decreases |cuts|
  {
    if cuts != [] {
      var first, rest := FramesOf(cuts[0]), AllFrames(cuts[1..]);
      FeedConcat(cap, l, first, rest);
      OneMessage(cap, l, cuts[0]);
      var ws := Wholes(cuts[1..]);
      assert ([Whole(cuts[0])] + ws)[1..] == ws;
      WithinTail(cap, Whole(cuts[0]), ws);
      var l' := Feed(cap, l, first);
      if l'.running {
        Reassembles(cap, l', cuts[1..]);
        Assoc(l.messages, [Whole(cuts[0])], UpToCap(cap, ws));
      } else {
        Stays(cap, l', rest);
      }
    }
  }

  lemma WithinTail(cap: Option<nat>, m: Message, ms: seq<Message>)
    ensures WithinCap(cap, [m] + ms) <==> Allows(cap, |m.payload|) && WithinCap(cap, ms)
  {
    var all := [m] + ms;
    if WithinCap(cap, all) {
      assert all[0] == m;
      forall i | 0 <= i < |ms| ensures Allows(cap, |ms[i].payload|) { assert all[i + 1] == ms[i]; }
    }
  }

  lemma {:induction false} WithinIsAll(cap: Option<nat>, ms: seq<Message>)
    requires WithinCap(cap, ms)
    ensures UpToCap(cap, ms) == ms
  {
    if ms != [] {
      HeadTail(ms);
      WithinIsAll(cap, ms[1..]);
    }
  }

  /** However the messages are cut into frames and wherever pings and pongs come between the frames, the
      loop passes on those messages, in order, up to the first one over the cap; and if none is, every ping
      is answered once, in order. */
  lemma {:induction false} ConversationReassembles(cap: Option<nat>, frames: seq<Frame>, cuts: seq<Cut>)
    requires NoClose(frames) && forall i :: 0 <= i < |cuts| ==> Legal(cuts[i])
    requires DataFrames(frames) == AllFrames(cuts)
    ensures Feed(cap, START, frames).messages == UpToCap(cap, Wholes(cuts))
    ensures WithinCap(cap, Wholes(cuts)) ==> Feed(cap, START, frames).messages == Wholes(cuts)
    ensures WithinCap(cap, Wholes(cuts)) ==> Feed(cap, START, frames).replies == Pongs(frames)
  {
    ControlsAreInvisible(cap, START, START, frames);
    Reassembles(cap, START, cuts);
    assert [] + UpToCap(cap, Wholes(cuts)) == UpToCap(cap, Wholes(cuts));
    if WithinCap(cap, Wholes(cuts)) {
      WithinIsAll(cap, Wholes(cuts));
      PingsFromStart(cap, frames);
    }
  }

  lemma PingsFromStart(cap: Option<nat>, frames: seq<Frame>)
    requires NoClose(frames) && Feed(cap, START, frames).running
    ensures Feed(cap, START, frames).replies == Pongs(frames)
  {
    EveryPingAnswered(cap, START, frames);
    assert [] + Pongs(frames) == Pongs(frames);
  }

  // ---- from bytes -----------------------------------------------------------------------------------

  lemma {:induction false} DecodeShrinks(max: Option<nat>, s: seq<u8>)
    requires Decode(max, s).Ok?
    ensures |Decode(max, s).value.1| < |s|
  {}

  /** The loop over the bytes of the connection; any error in a frame ends it. */
  function FeedBytes(max: Option<nat>, cap: Option<nat>, l: Loop, s: seq<u8>): Loop
    decreases |s|
  {
    if !l.running then l else
      var f := Decode(max, s);
      if f.Err? then l.(running := false) else
        DecodeShrinks(max, s);
        FeedBytes(max, cap, Step(cap, l, f.value.0), f.value.1)
  }

  /** `emit` fails once the application has gone, which is after `room` messages: then the loop ends. */
  function Emitted(room: Option<nat>, l: Loop): Loop {
    if Exceeds(room, |l.messages|) then l.(messages := l.messages[..room.value], running := false) else l
  }

  /** The loop over the bytes that arrive, for an application that goes after `room` messages. */
  function FeedHeard(max: Option<nat>, cap: Option<nat>, room: Option<nat>, l: Loop, s: seq<u8>): Loop
    decreases |s|
  {
    if !l.running then l else
      var f := Decode(max, s);
      if f.Err? then l.(running := false) else
        DecodeShrinks(max, s);
        FeedHeard(max, cap, room, Emitted(room, Step(cap, l, f.value.0)), f.value.1)
  }

  predicate GoesOnFrom(l: Loop, after: Loop) {
    l.messages <= after.messages && l.replies <= after.replies
  }

  lemma {:induction false} FeedGoesOn(max: Option<nat>, cap: Option<nat>, l: Loop, s: seq<u8>)
    ensures GoesOnFrom(l, FeedBytes(max, cap, l, s))
    decreases |s|
  {
    var f := Decode(max, s);
    if l.running && f.Ok? {
      DecodeShrinks(max, s);
      FeedGoesOn(max, cap, Step(cap, l, f.value.0), f.value.1);
    }
  }

  /** What an application gets that goes early is the beginning of what it would have got, up to where it went, with
      no reply sent that would not have been sent otherwise. */
  lemma {:induction false} HeardIsPrefix(max: Option<nat>, cap: Option<nat>, room: Option<nat>, l: Loop, s: seq<u8>)
    requires Allows(room, |l.messages|)
    ensures var all, heard := FeedBytes(max, cap, l, s), FeedHeard(max, cap, room, l, s);
            if Allows(room, |all.messages|) then heard == all
            else heard.messages == all.messages[..room.value] && heard.replies <= all.replies
    decreases |s|
  {
    var f := Decode(max, s);
    if l.running && f.Ok? {
      DecodeShrinks(max, s);
      var next := Step(cap, l, f.value.0);
      FeedGoesOn(max, cap, next, f.value.1);
      if Allows(room, |next.messages|) { HeardIsPrefix(max, cap, room, next, f.value.1); }
    }
  }

  /** Frames with their masks, as they go over the wire. */
  function Wire(frames: seq<(Frame, Option<Key>)>): seq<u8> {
    if frames == [] then [] else Encode(frames[0].0, frames[0].1) + Wire(frames[1..])
  }

  function Unmasked(frames: seq<(Frame, Option<Key>)>): seq<Frame> {
    if frames == [] then [] else [frames[0].0] + Unmasked(frames[1..])
  }

  /** Over the bytes of any frames within the frame limit, the loop does what it does over the frames. */
  lemma {:induction false} BytesAreFrames(max: Option<nat>, cap: Option<nat>, l: Loop,
                                          frames: seq<(Frame, Option<Key>)>)
    requires forall i :: 0 <= i < |frames| ==> Small(max, frames[i].0)
    ensures FeedBytes(max, cap, l, Wire(frames)) == Feed(cap, l, Unmasked(frames)).(running := false)
    decreases |frames|
  {
    if frames != [] && l.running {
      FrameRoundTrip(max, frames[0].0, frames[0].1, Wire(frames[1..]));
      assert ([frames[0].0] + Unmasked(frames[1..]))[1..] == Unmasked(frames[1..]);
      BytesAreFrames(max, cap, Step(cap, l, frames[0].0), frames[1..]);
    }
  }

  /** What one call of the reader gives. */
  function Reading(max: Option<nat>): seq<u8> -> Read<Frame> {
    (s: seq<u8>) => Decode(max, s)
  }

  /** `n` frames read one after the other, and the bytes they leave. */
  function ReadMany(read: seq<u8> -> Read<Frame>, s: seq<u8>, n: nat): Read<seq<Frame>>
    decreases n
  {
    if n == 0 then Ok(([], s)) else
      var f := read(s);
      if f.Err? then Err(f.error) else
        var more := ReadMany(read, f.value.1, n - 1);
        if more.Err? then more else Ok(([f.value.0] + more.value.0, more.value.1))
  }

  predicate Small(max: Option<nat>, f: Frame) {
    |f.payload| <= I64_MAX && Allows(max, |f.payload|)
  }

  /** The frame at the front of the bytes is what a read gives, and the rest what it leaves. */
  ghost predicate ReadsFirst(read: seq<u8> -> Read<Frame>, frames: seq<(Frame, Option<Key>)>, rest: seq<u8>) {
    frames != [] ==> read(Wire(frames) + rest) == Ok((frames[0].0, Wire(frames[1..]) + rest))
  }

  lemma FirstFrame(max: Option<nat>, frames: seq<(Frame, Option<Key>)>, rest: seq<u8>)
    requires frames != [] && Small(max, frames[0].0)
    ensures ReadsFirst(Reading(max), frames, rest)
  {
    Assoc(Encode(frames[0].0, frames[0].1), Wire(frames[1..]), rest);
    FrameRoundTrip(max, frames[0].0, frames[0].1, Wire(frames[1..]) + rest);
  }

  lemma ReadBoth(read: seq<u8> -> Read<Frame>, s: seq<u8>, f: Frame, more: seq<u8>, n: nat, fs: seq<Frame>,
                 rest: seq<u8>)
    requires read(s) == Ok((f, more)) && ReadMany(read, more, n) == Ok((fs, rest))
    ensures ReadMany(read, s, n + 1) == Ok(([f] + fs, rest))
  {}

  lemma {:induction false} ReadInTurn(read: seq<u8> -> Read<Frame>, frames: seq<(Frame, Option<Key>)>, rest: seq<u8>)
    requires forall k :: 0 <= k <= |frames| ==> ReadsFirst(read, frames[k..], rest)
    ensures ReadMany(read, Wire(frames) + rest, |frames|) == Ok((Unmasked(frames), rest))
    decreases |frames|
  {
    if frames == [] {
      assert [] + rest == rest;
    } else {
      var more := frames[1..];
      assert frames[0..] == frames && ReadsFirst(read, frames[0..], rest);
      forall k | 0 <= k <= |more|
        ensures ReadsFirst(read, more[k..], rest)
      {
        assert more[k..] == frames[k + 1..];
      }
      ReadInTurn(read, more, rest);
      ReadBoth(read, Wire(frames) + rest, frames[0].0, Wire(more) + rest, |more|, Unmasked(more), rest);
    }
  }

  /** Frames of all lengths, masked or not, are read back in order, and not one byte past the last. */
  lemma FramesReadBack(max: Option<nat>, frames: seq<(Frame, Option<Key>)>, rest: seq<u8>)
    requires forall i :: 0 <= i < |frames| ==> Small(max, frames[i].0)
    ensures ReadMany(Reading(max), Wire(frames) + rest, |frames|) == Ok((Unmasked(frames), rest))
  {
    forall k | 0 <= k <= |frames|
      ensures ReadsFirst(Reading(max), frames[k..], rest)
    {
      if k < |frames| { FirstFrame(max, frames[k..], rest); }
    }
    ReadInTurn(Reading(max), frames, rest);
  }
}
