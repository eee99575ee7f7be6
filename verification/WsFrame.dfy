/** WebSocket frames (RFC 6455) as `ws/frame.rs` writes them and `ws/conn.rs` reads them. */
module WsFrame {
  import opened Wrappers
  import opened Seqs
  import opened Values
  import opened Bytes

  const I64_MAX := 0x7FFF_FFFF_FFFF_FFFF

  datatype Opcode = Continuation | Text | Binary | Close | Ping | Pong

  datatype Frame = Frame(fin: bool, opcode: Opcode, payload: seq<u8>)

  datatype FrameError = Eof | BadOpcode | TooLong | OverMax

  type Key = k: seq<u8> | |k| == 4 witness [0, 0, 0, 0]

  function OpcodeBits(op: Opcode): (b: u8)
    ensures b < 16
  {
    match op
    case Continuation => 0
    case Text => 1
    case Binary => 2
    case Close => 8
    case Ping => 9
    case Pong => 10
  }

  function OpcodeFrom(b: nat): Option<Opcode> {
    match b
    case 0 => Some(Continuation)
    case 1 => Some(Text)
    case 2 => Some(Binary)
    case 8 => Some(Close)
    case 9 => Some(Ping)
    case 10 => Some(Pong)
    case _ => None
  }

  function Masked(payload: seq<u8>, key: Key): (m: seq<u8>)
    ensures |m| == |payload|
  {
    seq(|payload|, i requires 0 <= i < |payload| => Xor(payload[i], key[i % 4]))
  }

  lemma MaskTwice(payload: seq<u8>, key: Key)
    ensures Masked(Masked(payload, key), key) == payload
  {
    forall i | 0 <= i < |payload|
      ensures Masked(Masked(payload, key), key)[i] == payload[i]
    {
      XorTwice(payload[i], key[i % 4]);
    }
  }

  // ---- writing ------------------------------------------------------------------------------

  function MaskBit(mask: Option<Key>): nat {
    if mask.Some? then 0x80 else 0
  }

  function LengthField(mask: Option<Key>, n: nat): seq<u8> {
    if n < 126 then [MaskBit(mask) + n]
    else if n <= 0xFFFF then [MaskBit(mask) + 126] + BigEndian(n, 2)
    else [MaskBit(mask) + 127] + BigEndian(n, 8)
  }

  function Body(payload: seq<u8>, mask: Option<Key>): seq<u8> {
    match mask case Some(key) => key + Masked(payload, key) case None => payload
  }

  function FirstByte(fin: bool, op: Opcode): u8 {
    (if fin then 0x80 else 0) + OpcodeBits(op)
  }

  function Encode(f: Frame, mask: Option<Key>): seq<u8> {
    [FirstByte(f.fin, f.opcode)] + LengthField(mask, |f.payload|) + Body(f.payload, mask)
  }

  // ---- reading ------------------------------------------------------------------------------

  type Read<T> = Result<(T, seq<u8>), FrameError>

  function Take(n: nat, s: seq<u8>): Read<seq<u8>> {
    if n <= |s| then Ok((s[..n], s[n..])) else Err(Eof)
  }

  /** The payload length announced by the seven bits and, for 126 and 127, the bytes after them. */
  function DecodeLength(len7: nat, s: seq<u8>): Read<nat> {
    if len7 == 126 then
      var r := Take(2, s);
      if r.Err? then Err(r.error) else Ok((FromBigEndian(r.value.0), r.value.1))
    else if len7 == 127 then
      var r := Take(8, s);
      if r.Err? then Err(r.error)
      else if FromBigEndian(r.value.0) > I64_MAX then Err(TooLong)
      else Ok((FromBigEndian(r.value.0), r.value.1))
    else Ok((len7, s))
  }

  function DecodeBody(masked: bool, n: nat, s: seq<u8>): Read<seq<u8>> {
    if !masked then Take(n, s) else
      var k := Take(4, s);
      if k.Err? then Err(k.error) else
        var p := Take(n, k.value.1);
        if p.Err? then p else Ok((Masked(p.value.0, k.value.0), p.value.1))
  }

  predicate Exceeds(max: Option<nat>, n: nat) {
    max.Some? && n > max.value
  }

  /** After the two header bytes. */
  function DecodeRest(max: Option<nat>, b0: u8, b1: u8, s: seq<u8>): Read<Frame> {
    var op := OpcodeFrom(b0 % 16);
    if op.None? then Err(BadOpcode) else
      var n := DecodeLength(b1 % 0x80, s);
      if n.Err? then Err(n.error)
      else if Exceeds(max, n.value.0) then Err(OverMax)
      else
        var p := DecodeBody(b1 >= 0x80, n.value.0, n.value.1);
        if p.Err? then Err(p.error) else Ok((Frame(b0 >= 0x80, op.value, p.value.0), p.value.1))
  }

  function Decode(max: Option<nat>, s: seq<u8>): Read<Frame> {
    if |s| < 2 then Err(Eof) else DecodeRest(max, s[0], s[1], s[2..])
  }

  // ---- round trip -----------------------------------------------------------------------------

  lemma TakeBack(a: seq<u8>, rest: seq<u8>)
    ensures Take(|a|, a + rest) == Ok((a, rest))
  {
    Parts(a, rest);
  }

  lemma FirstByteBack(fin: bool, op: Opcode)
    ensures OpcodeFrom(FirstByte(fin, op) % 16) == Some(op) && (FirstByte(fin, op) >= 0x80 <==> fin)
  {}

  lemma LengthBack(mask: Option<Key>, n: nat, rest: seq<u8>)
    requires n <= I64_MAX
    ensures var f := LengthField(mask, n);
            && f != [] && DecodeLength(f[0] % 0x80, f[1..] + rest) == Ok((n, rest))
            && (f[0] >= 0x80 <==> mask.Some?)
  {
    var f := LengthField(mask, n);
    if n < 126 {
      assert f[1..] == [];
      assert [] + rest == rest;
    } else if n <= 0xFFFF {
      LongLengthBack(n, 2, rest);
      assert f[1..] == BigEndian(n, 2);
    } else {
      LongLengthBack(n, 8, rest);
      assert f[1..] == BigEndian(n, 8);
    }
  }

  lemma LongLengthBack(n: nat, width: nat, rest: seq<u8>)
    requires (width == 2 && n <= 0xFFFF) || (width == 8 && n <= I64_MAX)
    ensures DecodeLength(if width == 2 then 126 else 127, BigEndian(n, width) + rest) == Ok((n, rest))
  {
    PowerValues();
    BigEndianReads(n, width);
    TakeBack(BigEndian(n, width), rest);
  }

  lemma PowerValues()
    ensures Power256(2) == 0x1_0000 && Power256(8) == 0x1_0000_0000_0000_0000
  {
    assert Power256(4) == 0x1_0000_0000;
  }

  lemma BodyBack(payload: seq<u8>, mask: Option<Key>, rest: seq<u8>)
    ensures DecodeBody(mask.Some?, |payload|, Body(payload, mask) + rest) == Ok((payload, rest))
  {
    match mask
    case None => TakeBack(payload, rest);
    case Some(key) =>
      Assoc(key, Masked(payload, key), rest);
      TakeBack(key, Masked(payload, key) + rest);
      TakeBack(Masked(payload, key), rest);
      MaskTwice(payload, key);
  }

  /** A limit, if there is one, allows everything up to itself. */
  predicate Allows(max: Option<nat>, n: nat) {
    max.None? || n <= max.value
  }

  /** Reading undoes writing for every frame, mask key and following bytes, unless the frame is over the limit. */
  lemma FrameRoundTrip(max: Option<nat>, f: Frame, mask: Option<Key>, rest: seq<u8>)
    requires |f.payload| <= I64_MAX
    ensures Decode(max, Encode(f, mask) + rest) == if Allows(max, |f.payload|) then Ok((f, rest)) else Err(OverMax)
  {
    var n := |f.payload|;
    var field, body := LengthField(mask, n), Body(f.payload, mask);
    var b0 := FirstByte(f.fin, f.opcode);
    var s := Encode(f, mask) + rest;
    FirstByteBack(f.fin, f.opcode);
    LengthBack(mask, n, body + rest);
    BodyBack(f.payload, mask, rest);
    EncodedParts(b0, field, body, rest);
    assert s[0] == b0 && s[1] == field[0] && s[2..] == field[1..] + (body + rest);
  }

  lemma EncodedParts(b0: u8, field: seq<u8>, body: seq<u8>, rest: seq<u8>)
    requires field != []
    ensures var s := [b0] + field + body + rest;
            |s| >= 2 && s[0] == b0 && s[1] == field[0] && s[2..] == field[1..] + (body + rest)
  {
    Assoc([b0] + field, body, rest);
    Assoc([b0], field, body + rest);
    HeadTail(field);
    Assoc([field[0]], field[1..], body + rest);
  }

  // ---- the layout -----------------------------------------------------------------------------

  /** The bytes of the extended length. */
  function Wide(n: nat): nat {
    if n <= 125 then 0 else if n <= 65535 then 2 else 8
  }

  /** Section 5.2 of RFC 6455: final flag and opcode; mask flag and length, in one, three or nine bytes; the key; and
      each payload byte, masked with its byte of the key. */
  predicate IsLayout(s: seq<u8>, f: Frame, mask: Option<Key>) {
    var n, wide, m := |f.payload|, Wide(|f.payload|), if mask.Some? then 4 else 0;
    && |s| == 2 + wide + m + n
    && s[0] == (if f.fin then 128 else 0) + Code(f.opcode)
    && s[1] == (if mask.Some? then 128 else 0) + (if wide == 0 then n else if wide == 2 then 126 else 127)
    && (wide > 0 ==> FromBigEndian(s[2..2 + wide]) == n)
    && (mask.Some? ==> s[2 + wide..6 + wide] == mask.value)
    && forall i :: 0 <= i < n ==> s[2 + wide + m + i] == PayloadByte(f.payload, mask, i)
  }

  lemma Layout(f: Frame, mask: Option<Key>)
    requires |f.payload| <= I64_MAX
    ensures IsLayout(Encode(f, mask), f, mask)
  {
    var field, body := LengthField(mask, |f.payload|), Body(f.payload, mask);
    LengthLayout(mask, |f.payload|, field);
    BodyLayout(f.payload, mask, body);
    LaidOut(f, mask, field, body, [FirstByte(f.fin, f.opcode)] + field + body);
  }

  predicate IsLengthField(mask: Option<Key>, n: nat, field: seq<u8>) {
    && |field| == 1 + Wide(n)
    && field[0] == (if mask.Some? then 128 else 0) + (if n <= 125 then n else if n <= 65535 then 126 else 127)
    && (Wide(n) > 0 ==> FromBigEndian(field[1..]) == n)
  }

  lemma LengthLayout(mask: Option<Key>, n: nat, field: seq<u8>)
    requires n <= I64_MAX && field == LengthField(mask, n)
    ensures IsLengthField(mask, n, field)
  {
    PowerValues();
    if 125 < n <= 65535 {
      BigEndianReads(n, 2);
      assert field[1..] == BigEndian(n, 2);
    }
    if 65535 < n {
      BigEndianReads(n, 8);
      assert field[1..] == BigEndian(n, 8);
    }
  }

  predicate IsBody(payload: seq<u8>, mask: Option<Key>, body: seq<u8>) {
    var m := if mask.Some? then 4 else 0;
    && |body| == m + |payload| && (mask.Some? ==> body[..4] == mask.value)
    && forall i :: 0 <= i < |payload| ==> body[m + i] == PayloadByte(payload, mask, i)
  }

  lemma BodyLayout(payload: seq<u8>, mask: Option<Key>, body: seq<u8>)
    requires body == Body(payload, mask)
    ensures IsBody(payload, mask, body)
  {}

  lemma LaidOut(f: Frame, mask: Option<Key>, field: seq<u8>, body: seq<u8>, s: seq<u8>)
    requires IsLengthField(mask, |f.payload|, field) && IsBody(f.payload, mask, body)
    requires s == [FirstByte(f.fin, f.opcode)] + field + body
    ensures IsLayout(s, f, mask)
  {
    var e := 1 + |field|;
    assert s[2..e] == field[1..] && s[e..] == body;
    if mask.Some? { assert s[e..e + 4] == body[..4]; }
  }

  function PayloadByte(payload: seq<u8>, mask: Option<Key>, i: nat): u8
    requires i < |payload|
  {
    match mask case Some(key) => Xor(payload[i], key[i % 4]) case None => payload[i]
  }

  /** The opcodes of that section. */
  function Code(op: Opcode): nat {
    match op
    case Continuation => 0x0
    case Text => 0x1
    case Binary => 0x2
    case Close => 0x8
    case Ping => 0x9
    case Pong => 0xA
  }

  /** Any other opcode is refused. */
  lemma OtherOpcodes(max: Option<nat>, s: seq<u8>)
    requires |s| >= 2 && s[0] % 16 !in {0, 1, 2, 8, 9, 10}
    ensures Decode(max, s) == Err(BadOpcode)
  {}

  /** A length past the largest signed number, which section 5.2 forbids, is refused. */
  lemma LongLengthRefused(max: Option<nat>, s: seq<u8>)
    requires |s| >= 10 && s[0] % 16 in {0, 1, 2, 8, 9, 10} && s[1] % 128 == 127
    requires FromBigEndian(s[2..10]) > 0x7FFF_FFFF_FFFF_FFFF
    ensures Decode(max, s) == Err(TooLong)
  {
    assert s[2..][..8] == s[2..10];
  }

  lemma CutInLength(mask: Option<Key>, n: nat, t: seq<u8>)
    requires n <= I64_MAX && |t| < |LengthField(mask, n)| - 1
    ensures DecodeLength(LengthField(mask, n)[0] % 128, t) == Err(Eof)
  {}

  lemma CutInBody(payload: seq<u8>, mask: Option<Key>, part: seq<u8>)
    requires |part| < |Body(payload, mask)|
    ensures DecodeBody(mask.Some?, |payload|, part) == Err(Eof)
  {}

  lemma CutParts(b0: u8, field: seq<u8>, body: seq<u8>, k: nat)
    requires field != [] && 2 <= k < 1 + |field| + |body|
    ensures var t := ([b0] + field + body)[..k];
            && t[0] == b0 && t[1] == field[0]
            && if k < 1 + |field| then |t[2..]| < |field| - 1 else t[2..] == field[1..] + body[..k - 1 - |field|]
  {}

  /** A frame that is cut off anywhere is not read. */
  lemma CutOffFrame(f: Frame, mask: Option<Key>, k: nat)
    requires |f.payload| <= I64_MAX && k < |Encode(f, mask)|
    ensures Decode(None, Encode(f, mask)[..k]) == Err(Eof)
  {
    var n := |f.payload|;
    var field, body := LengthField(mask, n), Body(f.payload, mask);
    FirstByteBack(f.fin, f.opcode);
    if k >= 2 {
      CutParts(FirstByte(f.fin, f.opcode), field, body, k);
      if k < 1 + |field| {
        CutInLength(mask, n, Encode(f, mask)[..k][2..]);
      } else {
        var part := body[..k - 1 - |field|];
        LengthBack(mask, n, part);
        CutInBody(f.payload, mask, part);
      }
    }
  }
}
