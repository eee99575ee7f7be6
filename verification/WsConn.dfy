/** The connection's reader and writer: bytes taken from leftovers and from socket reads of any size. */
module WsConn {
  import opened Wrappers
  import opened Seqs
  import opened Values
  import opened Bytes
  import opened WsFrame
  import opened WsReassembly

  const READ_CHUNK := 64 * 1024

  /** `apply_mask`: in place. */
  method ApplyMask(payload: array<u8>, key: Key)
    modifies payload
    ensures payload[..] == Masked(old(payload[..]), key)
  {
    for i := 0 to payload.Length
      invariant forall j :: 0 <= j < i ==> payload[j] == Xor(old(payload[j]), key[j % 4])
      invariant forall j :: i <= j < payload.Length ==> payload[j] == old(payload[j])
    {
      payload[i] := Xor(payload[i], key[i % 4]);
    }
  }

  method MaskedCopy(payload: seq<u8>, key: Key) returns (out: seq<u8>)
    ensures out == Masked(payload, key)
  {
    out := [];
    for i := 0 to |payload|
      invariant out == Masked(payload, key)[..i]
    {
      out := out + [Xor(payload[i], key[i % 4])];
    }
  }

  /** `encode`, with the random key as a parameter. */
  method EncodeFrame(fin: bool, opcode: Opcode, payload: seq<u8>, mask: Option<Key>) returns (out: seq<u8>)
    ensures out == Encode(Frame(fin, opcode, payload), mask)
  {
    out := [(if fin then 0x80 else 0) + OpcodeBits(opcode)];
    ghost var first := out;
    var maskBit := if mask.Some? then 0x80 else 0;
    var len := |payload|;
    if len < 126 {
      out := out + [maskBit + len];
    } else if len <= 0xFFFF {
      out := out + [maskBit + 126];
      out := out + BigEndian(len, 2);
      Assoc(first, [maskBit + 126], BigEndian(len, 2));
    } else {
      out := out + [maskBit + 127];
      out := out + BigEndian(len, 8);
      Assoc(first, [maskBit + 127], BigEndian(len, 8));
    }
    ghost var header := out;
    match mask {
      case None => out := out + payload;
      case Some(key) =>
        out := out + key;
        var masked := MaskedCopy(payload, key);
        out := out + masked;
        Assoc(header, key, masked);
    }
  }

  class Reader {
    var buf: seq<u8>
    var pos: nat
    /** What the socket has still to deliver. */
    var inner: seq<u8>
    const maxFrameSize: Option<nat>

    ghost predicate Valid()
      reads this
    {
      pos <= |buf|
    }

    ghost function Stream(): seq<u8>
      requires Valid()
      reads this
    {
      buf[pos..] + inner
    }

    constructor (inner: seq<u8>, leftover: seq<u8>, maxFrameSize: Option<nat>)
      ensures Valid() && Stream() == leftover + inner && this.maxFrameSize == maxFrameSize
    {
      this.inner, buf, pos := inner, leftover, 0;
      this.maxFrameSize := maxFrameSize;
    }

    /** A socket read delivers between one byte and `want`, none only at the end. */
    method SocketRead(want: nat) returns (bytes: seq<u8>)
      requires want > 0
      modifies this`inner
      ensures old(inner) == bytes + inner && |bytes| <= want && (bytes == [] <==> old(inner) == [])
    {
      if inner == [] { return []; }
      var n: nat :| 1 <= n <= want && n <= |inner|;
      bytes, inner := inner[..n], inner[n..];
    }

    /** From the leftovers while there are any, else from the socket. */
    method TakeSome(want: nat) returns (part: seq<u8>)
      requires Valid() && want > 0
      modifies this`pos, this`inner
      ensures Valid() && old(Stream()) == part + Stream() && |part| <= want && (part == [] <==> old(Stream()) == [])
    {
      if pos < |buf| {
        var take := if want < |buf| - pos then want else |buf| - pos;
        part := buf[pos..pos + take];
        assert buf[pos..] == part + buf[pos + take..];
        Assoc(part, buf[pos + take..], inner);
        pos := pos + take;
      } else {
        assert buf[pos..] == [];
        part := SocketRead(if want < READ_CHUNK then want else READ_CHUNK);
        assert [] + inner == inner && [] + (part + inner) == part + inner;
      }
    }

    /** Whatever sizes the reads come in, exactly the next `n` bytes. */
    method ReadExact(n: nat) returns (r: Result<seq<u8>, FrameError>)
      requires Valid()
      modifies this`pos, this`inner
      ensures Valid() && Agrees(Take(n, old(Stream())), r, Stream())
    {
      var out := [];
      ghost var all := Stream();
      assert [] + all == all;
      while |out| < n
        invariant Valid() && |out| <= n && out + Stream() == all
        decreases n - |out|
      {
        var part := TakeSome(n - |out|);
        Assoc(out, part, Stream());
        if part == [] { return Err(Eof); }
        out := out + part;
      }
      Parts(out, Stream());
      r := Ok(out);
    }

    method ReadLength(len7: nat) returns (r: Result<nat, FrameError>)
      requires Valid()
      modifies this`pos, this`inner
      ensures Valid() && Agrees(DecodeLength(len7, old(Stream())), r, Stream())
    {
      if len7 == 126 {
        var b := ReadExact(2);
        r := if b.Err? then Err(b.error) else Ok(FromBigEndian(b.value));
      } else if len7 == 127 {
        var b := ReadExact(8);
        if b.Err? { return Err(b.error); }
        var raw := FromBigEndian(b.value);
        r := if raw > I64_MAX then Err(TooLong) else Ok(raw);
      } else {
        r := Ok(len7);
      }
    }

    method ReadBody(masked: bool, n: nat) returns (r: Result<seq<u8>, FrameError>)
      requires Valid()
      modifies this`pos, this`inner
      ensures Valid() && Agrees(DecodeBody(masked, n, old(Stream())), r, Stream())
    {
      var key: Key := [0, 0, 0, 0];
      if masked {
        var k := ReadExact(4);
        if k.Err? { return Err(k.error); }
        key := k.value;
      }
      r := ReadExact(n);
      if r.Ok? && masked {
        var payload := new u8[|r.value|](i requires 0 <= i < |r.value| => r.value[i]);
        assert payload[..] == r.value;
        ApplyMask(payload, key);
        r := Ok(payload[..]);
      }
    }

    method ReadFrame() returns (r: Result<Frame, FrameError>)
      requires Valid()
      modifies this`pos, this`inner
      ensures Valid() && Agrees(Decode(maxFrameSize, old(Stream())), r, Stream())
    {
      var hdr := ReadExact(2);
      if hdr.Err? { return Err(hdr.error); }
      var b0, b1 := hdr.value[0], hdr.value[1];
      var opcode := OpcodeFrom(b0 % 16);
      if opcode.None? { return Err(BadOpcode); }
      var len := ReadLength(b1 % 0x80);
      if len.Err? { return Err(len.error); }
      if Exceeds(maxFrameSize, len.value) { return Err(OverMax); }
      var payload := ReadBody(b1 >= 0x80, len.value);
      r := if payload.Err? then Err(payload.error) else Ok(Frame(b0 >= 0x80, opcode.value, payload.value));
    }
  }

  /** The method's result and the stream it leaves are what the function gives. */
  ghost predicate Agrees<T(!new)>(spec: Read<T>, r: Result<T, FrameError>, stream: seq<u8>) {
    if spec.Err? then r == Err(spec.error) else r == Ok(spec.value.0) && stream == spec.value.1
  }

  /** `read_loop`: messages for the application and replies for the writer, until a close, an error, an
      oversized message, or one that the application is no longer there for: it goes after `room` of them. */
  method ReadLoop(reader: Reader, cap: Option<nat>, room: Option<nat>)
    returns (messages: seq<Message>, replies: seq<Reply>)
    requires reader.Valid()
    modifies reader
    ensures messages == FeedHeard(reader.maxFrameSize, cap, room, START, old(reader.Stream())).messages
    ensures replies == FeedHeard(reader.maxFrameSize, cap, room, START, old(reader.Stream())).replies
  {
    messages, replies := [], [];
    var frag: Option<Message> := None;
    ghost var max, all := reader.maxFrameSize, FeedHeard(reader.maxFrameSize, cap, room, START, reader.Stream());
    while true
      invariant reader.Valid()
      invariant FeedHeard(max, cap, room, Loop(messages, replies, frag, true), reader.Stream()) == all
      invariant !Exceeds(room, |messages|)
      decreases |reader.Stream()|
    {
      ghost var before := reader.Stream();
      var r := reader.ReadFrame();
      if r.Err? { break; }
      DecodeShrinks(max, before);
      var frame := r.value;
      match frame.opcode {
        case Ping => replies := replies + [PongReply(frame.payload)];
        case Pong =>
        case Close =>
          replies := replies + [CloseReply];
          break;
        case Continuation =>
          if frag.Some? {
            frag := Some(frag.value.(payload := frag.value.payload + frame.payload));
            if Exceeds(cap, |frag.value.payload|) { break; }
            if frame.fin {
              if room == Some(|messages|) { break; }
              messages, frag := messages + [frag.value], None;
            }
          }
        case _ =>
          if frame.fin {
            if Exceeds(cap, |frame.payload|) { break; }
            if room == Some(|messages|) { break; }
            messages := messages + [Message(frame.opcode, frame.payload)];
          } else {
            frag := Some(Message(frame.opcode, frame.payload));
          }
      }
    }
  }
}
