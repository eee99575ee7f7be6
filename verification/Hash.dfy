/** Incremental hashing and HMAC of `hash/mod.rs`. The compression function is a parameter, so that
    SHA-256 and SHA-1, whose buffering is the same, are both instances. */
module Hash {
  import opened Seqs
  import opened Values
  import opened Bytes

  const BLOCK := 64
  const U64 := 0x1_0000_0000_0000_0000

  type Word = w: int | 0 <= w < 0x1_0000_0000

  /** The initial words and the compression of one 64-byte block into them. */
  datatype Algorithm = Algorithm(initial: seq<Word>, compress: (seq<Word>, seq<u8>) -> seq<Word>)

  // ---- the reference definition -------------------------------------------------------------

  function Zeros(n: nat): (z: seq<u8>)
    ensures |z| == n
  {
    seq(n, _ => 0)
  }

  /** `n` in eight bytes, most significant first. */
  function LengthBytes(n: nat): (b: seq<u8>)
    requires n < U64
    ensures |b| == 8
  {
    BigEndian(n, 8)
  }

  /** One bit, then zeros up to eight bytes before the end of a block, then the length in bits. */
  function Padding(n: nat): seq<u8> {
    [0x80] + Zeros((119 - n % BLOCK) % BLOCK) + LengthBytes(n * 8 % U64)
  }

  function Fold(alg: Algorithm, h: seq<Word>, data: seq<u8>): seq<Word>
    requires |data| % BLOCK == 0
    decreases |data|
  {
    if data == [] then h else Fold(alg, alg.compress(h, data[..BLOCK]), data[BLOCK..])
  }

  lemma PaddedIsBlocks(n: nat)
    ensures (n + |Padding(n)|) % BLOCK == 0
  {
    var r := n % BLOCK;
    var k := if r <= 55 then 55 - r else 119 - r;
    assert (119 - r) % BLOCK == k;
    BlocksAndMore(n - r, r + 9 + k);
  }

  function WordsOut(h: seq<Word>): (out: seq<u8>)
    ensures |out| == 4 * |h|
  {
    if h == [] then [] else BigEndian(h[0], 4) + WordsOut(h[1..])
  }

  function Digest(alg: Algorithm, message: seq<u8>): seq<u8> {
    PaddedIsBlocks(|message|);
    WordsOut(Fold(alg, alg.initial, message + Padding(|message|)))
  }

  lemma {:induction false} FoldConcat(alg: Algorithm, h: seq<Word>, a: seq<u8>, b: seq<u8>)
    requires |a| % BLOCK == 0 && |b| % BLOCK == 0
    ensures Fold(alg, h, a + b) == Fold(alg, Fold(alg, h, a), b)
    decreases |a|
  {
    if a == [] {
      assert a + b == b;
    } else {
      assert (a + b)[..BLOCK] == a[..BLOCK] && (a + b)[BLOCK..] == a[BLOCK..] + b;
      FoldConcat(alg, alg.compress(h, a[..BLOCK]), a[BLOCK..], b);
    }
  }

  lemma FoldBlock(alg: Algorithm, h: seq<Word>, whole: seq<u8>, block: seq<u8>)
    requires |whole| % BLOCK == 0 && |block| == BLOCK
    ensures Fold(alg, h, whole + block) == alg.compress(Fold(alg, h, whole), block)
  {
    FoldConcat(alg, h, whole, block);
    assert block[..BLOCK] == block && block[BLOCK..] == [];
  }

  // ---- the hasher ---------------------------------------------------------------------------

  /** `whole` is what has been folded into `h`, `tail` what waits in the buffer. */
  ghost predicate Absorbed(alg: Algorithm, h: seq<Word>, tail: seq<u8>, whole: seq<u8>, all: seq<u8>) {
    |whole| % BLOCK == 0 && all == whole + tail && h == Fold(alg, alg.initial, whole)
  }

  lemma AbsorbBlock(alg: Algorithm, h: seq<Word>, tail: seq<u8>, whole: seq<u8>, all: seq<u8>, more: seq<u8>)
    requires Absorbed(alg, h, tail, whole, all) && |tail + more| == BLOCK
    ensures Absorbed(alg, alg.compress(h, tail + more), [], whole + (tail + more), all + more)
  {
    FoldBlock(alg, alg.initial, whole, tail + more);
    Assoc(whole, tail, more);
    assert whole + (tail + more) + [] == whole + (tail + more);
  }

  lemma AbsorbTail(alg: Algorithm, h: seq<Word>, tail: seq<u8>, whole: seq<u8>, all: seq<u8>, more: seq<u8>)
    requires Absorbed(alg, h, tail, whole, all)
    ensures Absorbed(alg, h, tail + more, whole, all + more)
  {
    Assoc(whole, tail, more);
  }

  lemma BlocksAndMore(blocks: nat, more: nat)
    requires blocks % BLOCK == 0
    ensures (blocks + more) % BLOCK == more % BLOCK
  {
    assert blocks == blocks / BLOCK * BLOCK;
  }

  lemma OneBlock(w: seq<u8>, t: seq<u8>, b: seq<u8>, z: seq<u8>, l: seq<u8>)
    ensures (w + t) + ((b + z) + l) == w + (((t + b) + z) + l)
  {
    Assoc(w, t, (b + z) + l);
    Assoc(t, b + z, l);
    Assoc(t, b, z);
  }

  lemma TwoBlocks(w: seq<u8>, t: seq<u8>, b: seq<u8>, y: seq<u8>, z: seq<u8>, l: seq<u8>)
    ensures (w + t) + ((b + (y + z)) + l) == (w + ((t + b) + y)) + (z + l)
  {
    OneBlock(w, t, b, y + z, l);
    Assoc(t + b, y, z);
    Assoc((t + b) + y, z, l);
    Assoc(w, (t + b) + y, z + l);
  }

  lemma ShortPadding(n: nat, i: nat)
    requires n % BLOCK == i && i + 1 <= BLOCK - 8
    ensures Padding(n) == ([0x80] + Zeros(BLOCK - 8 - i - 1)) + LengthBytes(n * 8 % U64)
  {}

  lemma LongPadding(n: nat, i: nat)
    requires n % BLOCK == i && BLOCK - 8 < i + 1
    ensures Padding(n) == ([0x80] + (Zeros(BLOCK - i - 1) + Zeros(BLOCK - 8))) + LengthBytes(n * 8 % U64)
  {
    assert (119 - n % BLOCK) % BLOCK == 119 - i;
    assert Zeros(BLOCK - i - 1) + Zeros(BLOCK - 8) == Zeros(119 - i);
  }

  /** The last block, when the padding fits behind the tail. */
  lemma LastBlock(alg: Algorithm, h: seq<Word>, tail: seq<u8>, whole: seq<u8>, all: seq<u8>, length: seq<u8>)
    requires Absorbed(alg, h, tail, whole, all) && |tail| + 1 <= BLOCK - 8 && length == LengthBytes(|all| * 8 % U64)
    ensures Digest(alg, all) == WordsOut(alg.compress(h, tail + [0x80] + Zeros(BLOCK - 8 - |tail| - 1) + length))
  {
    BlocksAndMore(|whole|, |tail|);
    ShortPadding(|all|, |tail|);
    OneBlock(whole, tail, [0x80], Zeros(BLOCK - 8 - |tail| - 1), length);
    FoldBlock(alg, alg.initial, whole, tail + [0x80] + Zeros(BLOCK - 8 - |tail| - 1) + length);
  }

  /** The last two blocks, when the length needs a block of its own. */
  lemma LastBlocks(alg: Algorithm, h: seq<Word>, tail: seq<u8>, whole: seq<u8>, all: seq<u8>, length: seq<u8>)
    requires Absorbed(alg, h, tail, whole, all) && BLOCK - 8 < |tail| + 1 <= BLOCK
    requires length == LengthBytes(|all| * 8 % U64)
    ensures var first := tail + [0x80] + Zeros(BLOCK - |tail| - 1);
            Digest(alg, all) == WordsOut(alg.compress(alg.compress(h, first), Zeros(BLOCK - 8) + length))
  {
    BlocksAndMore(|whole|, |tail|);
    LongPadding(|all|, |tail|);
    TwoBlocks(whole, tail, [0x80], Zeros(BLOCK - |tail| - 1), Zeros(BLOCK - 8), length);
    var first := tail + [0x80] + Zeros(BLOCK - |tail| - 1);
    FoldBlock(alg, alg.initial, whole, first);
    BlocksAndMore(|whole|, BLOCK);
    FoldBlock(alg, alg.initial, whole + first, Zeros(BLOCK - 8) + length);
  }

  lemma SumModulo(a: nat, b: nat)
    ensures (a % U64 + b) % U64 == (a + b) % U64
  {
    var q := a / U64;
    assert a == q * U64 + a % U64;
    AddMultiple(a % U64 + b, q);
  }

  lemma {:induction false} AddMultiple(x: nat, q: nat)
    ensures (q * U64 + x) % U64 == x % U64
  {
    if q > 0 {
      AddMultiple(x, q - 1);
      assert q * U64 + x == (q - 1) * U64 + x + U64;
    }
  }

  lemma BitLength(n: nat)
    ensures n % U64 * 8 % U64 == n * 8 % U64
  {
    var q := n / U64;
    assert n * 8 == (q * 8) * U64 + n % U64 * 8;
    AddMultiple(n % U64 * 8, q * 8);
  }

  class Hasher {
    const alg: Algorithm
    var h: seq<Word>
    const buf: array<u8>
    var bufLen: nat
    var total: nat
    /** Everything absorbed, and the part of it already folded. */
    ghost var all: seq<u8>
    ghost var whole: seq<u8>

    ghost predicate Buffered()
      reads this, buf
    {
      buf.Length == BLOCK && bufLen < BLOCK && Absorbed(alg, h, buf[..bufLen], whole, all)
    }

    ghost predicate Valid()
      reads this, buf
    {
      Buffered() && total == |all| % U64
    }

    constructor (alg: Algorithm)
      ensures Valid() && fresh(buf) && this.alg == alg && all == []
    {
      this.alg := alg;
      h, buf, bufLen, total := alg.initial, new u8[BLOCK], 0, 0;
      all, whole := [], [];
    }

    /** Copies into the buffer from `at` on. */
    method Copy(at: nat, data: seq<u8>)
      requires at + |data| <= buf.Length
      modifies buf
      ensures buf[..] == old(buf[..at]) + data + old(buf[at + |data|..])
    {
      forall i | 0 <= i < |data| {
        buf[at + i] := data[i];
      }
    }

    method Fill(at: nat)
      requires at <= buf.Length
      modifies buf
      ensures buf[..] == old(buf[..at]) + Zeros(buf.Length - at)
    {
      forall i | at <= i < buf.Length {
        buf[i] := 0;
      }
    }

    /** Tops up a partly filled buffer; returns what is left of the data. */
    method TopUp(data: seq<u8>) returns (rest: seq<u8>)
      requires Buffered() && bufLen > 0
      modifies this`h, this`bufLen, this`all, this`whole, buf
      ensures Buffered()
      ensures all + rest == old(all) + data && (rest != [] ==> bufLen == 0)
    {
      var need := BLOCK - bufLen;
      var take := if need < |data| then need else |data|;
      ghost var tail, more := buf[..bufLen], data[..take];
      Copy(bufLen, data[..take]);
      assert buf[..bufLen + take] == tail + more;
      rest := data[take..];
      assert old(all) + more + rest == old(all) + data;
      bufLen := bufLen + take;
      if bufLen == BLOCK {
        AbsorbBlock(alg, h, tail, whole, all, more);
        assert buf[..] == buf[..BLOCK];
        h, bufLen := alg.compress(h, buf[..]), 0;
        whole, all := whole + (tail + more), all + more;
        assert buf[..0] == [];
      } else {
        AbsorbTail(alg, h, tail, whole, all, more);
        all := all + more;
      }
    }

    method Update(data: seq<u8>)
      requires Valid()
      modifies this`h, this`bufLen, this`total, this`all, this`whole, buf
      ensures Valid() && all == old(all) + data
    {
      SumModulo(|all|, |data|);
      total := (total + |data|) % U64;
      var rest := data;
      if bufLen > 0 { rest := TopUp(data); }
      if rest != [] { Bulk(rest); } else { assert all + [] == all; }
    }

    /** Whole blocks straight from the data, the remainder into the empty buffer. */
    method Bulk(data: seq<u8>)
      requires Buffered() && bufLen == 0
      modifies this`h, this`bufLen, this`all, this`whole, buf
      ensures Buffered()
      ensures all == old(all) + data
    {
      var rest := data;
      assert buf[..0] == [];
      while |rest| >= BLOCK
        invariant Absorbed(alg, h, [], whole, all) && all + rest == old(all) + data && bufLen == 0
        modifies this`h, this`all, this`whole
      {
        ghost var more := rest[..BLOCK];
        assert [] + more == more && all + more + rest[BLOCK..] == all + rest;
        AbsorbBlock(alg, h, [], whole, all, more);
        h, rest := alg.compress(h, rest[..BLOCK]), rest[BLOCK..];
        whole, all := whole + more, all + more;
      }
      AbsorbTail(alg, h, [], whole, all, rest);
      assert [] + rest == rest;
      all := all + rest;
      if rest != [] {
        Copy(0, rest);
        bufLen := |rest|;
        assert buf[..bufLen] == rest;
      } else {
        assert buf[..0] == rest;
      }
    }

    /** Pads in place up to the length, which gets a block of its own when the buffer is too full. */
    method PadTail(length: seq<u8>)
      requires Valid() && length == LengthBytes(|all| * 8 % U64)
      modifies this`h, buf
      ensures Digest(alg, all) == WordsOut(alg.compress(h, buf[..BLOCK - 8] + length))
    {
      ghost var tail := buf[..bufLen];
      buf[bufLen] := 0x80;
      assert buf[..bufLen + 1] == tail + [0x80];
      Fill(bufLen + 1);
      if bufLen + 1 > BLOCK - 8 {
        LastBlocks(alg, h, tail, whole, all, length);
        h := alg.compress(h, buf[..]);
        Fill(0);
        assert buf[..BLOCK - 8] == Zeros(BLOCK - 8);
      } else {
        LastBlock(alg, h, tail, whole, all, length);
        assert buf[..BLOCK - 8] == tail + [0x80] + Zeros(BLOCK - 8 - bufLen - 1);
      }
    }

    method Finalize() returns (digest: seq<u8>)
      requires Valid()
      modifies this`h, buf
      ensures digest == Digest(alg, all)
    {
      BitLength(|all|);
      var length := LengthBytes(total * 8 % U64);
      PadTail(length);
      ghost var head := buf[..BLOCK - 8];
      Copy(BLOCK - 8, length);
      assert buf[..] == head + length;
      h := alg.compress(h, buf[..]);
      digest := WordsOut(h);
    }
  }

  function Concat(pieces: seq<seq<u8>>): seq<u8> {
    if pieces == [] then [] else pieces[0] + Concat(pieces[1..])
  }

  /** However the message is cut into updates, the digest is that of the whole. */
  method HashPieces(alg: Algorithm, pieces: seq<seq<u8>>) returns (digest: seq<u8>)
    ensures digest == Digest(alg, Concat(pieces))
  {
    var hasher := new Hasher(alg);
    for i := 0 to |pieces|
      invariant fresh(hasher) && fresh(hasher.buf) && hasher.alg == alg && hasher.Valid()
      invariant hasher.all + Concat(pieces[i..]) == Concat(pieces)
    {
      assert pieces[i..][0] == pieces[i] && pieces[i..][1..] == pieces[i + 1..];
      Assoc(hasher.all, pieces[i], Concat(pieces[i + 1..]));
      hasher.Update(pieces[i]);
    }
    assert hasher.all + [] == hasher.all;
    digest := hasher.Finalize();
  }

  // ---- HMAC ---------------------------------------------------------------------------------

  function XorAll(k: seq<u8>, b: u8): seq<u8> {
    seq(|k|, i requires 0 <= i < |k| => Xor(b, k[i]))
  }

  /** The digest fits a block: eight words for SHA-256, five for SHA-1. */
  ghost predicate Fits(alg: Algorithm) {
    forall m :: |Digest(alg, m)| <= BLOCK
  }

  function KeyBlock(alg: Algorithm, key: seq<u8>): seq<u8> {
    var k := if |key| > BLOCK then Digest(alg, key) else key;
    if |k| <= BLOCK then k + Zeros(BLOCK - |k|) else k[..BLOCK]
  }

  /** RFC 2104: H(K xor opad, H(K xor ipad, text)). */
  function Mac(alg: Algorithm, key: seq<u8>, message: seq<u8>): seq<u8> {
    var k := KeyBlock(alg, key);
    Digest(alg, XorAll(k, 0x5c) + Digest(alg, XorAll(k, 0x36) + message))
  }

  lemma MacIs(alg: Algorithm, key: seq<u8>, message: seq<u8>, oKey: seq<u8>, digest: seq<u8>)
    requires oKey == XorAll(KeyBlock(alg, key), 0x5c)
    requires digest == Digest(alg, XorAll(KeyBlock(alg, key), 0x36) + message)
    ensures Digest(alg, oKey + digest) == Mac(alg, key, message)
  {}

  /** The two keys, byte by byte. */
  method XorKeys(k: seq<u8>) returns (i: seq<u8>, o: seq<u8>)
    ensures i == XorAll(k, 0x36) && o == XorAll(k, 0x5c)
  {
    var iKey, oKey := new u8[|k|], new u8[|k|];
    for n := 0 to |k|
      invariant iKey[..n] == XorAll(k, 0x36)[..n]
      invariant oKey[..n] == XorAll(k, 0x5c)[..n]
    {
      iKey[n] := Xor(0x36, k[n]);
      oKey[n] := Xor(0x5c, k[n]);
    }
    i, o := iKey[..], oKey[..];
  }

  class Hmac {
    const inner: Hasher
    const oKey: seq<u8>
    ghost const key: seq<u8>
    ghost const alg: Algorithm
    /** The message so far. */
    ghost var message: seq<u8>

    ghost predicate Valid()
      reads this, inner, inner.buf
    {
      && inner.Valid() && inner.alg == alg
      && oKey == XorAll(KeyBlock(alg, key), 0x5c)
      && inner.all == XorAll(KeyBlock(alg, key), 0x36) + message
    }

    constructor (alg: Algorithm, key: seq<u8>)
      requires Fits(alg)
      ensures Valid() && fresh(inner) && fresh(inner.buf)
      ensures this.alg == alg && this.key == key && message == []
    {
      var hashed := key;
      if |key| > BLOCK {
        hashed := HashPieces(alg, [key]);
        assert Concat([key]) == key;
      }
      var k := hashed + Zeros(BLOCK - |hashed|);
      var iKey, oKey := XorKeys(k);
      var inner := new Hasher(alg);
      inner.Update(iKey);
      this.inner, this.oKey, this.alg, this.key, message := inner, oKey, alg, key, [];
    }

    method Update(data: seq<u8>)
      requires Valid()
      modifies this, inner, inner.buf
      ensures Valid() && message == old(message) + data
    {
      Assoc(XorAll(KeyBlock(alg, key), 0x36), message, data);
      inner.Update(data);
      message := message + data;
    }

    method Finalize() returns (tag: seq<u8>)
      requires Valid()
      modifies inner, inner.buf
      ensures tag == Mac(alg, key, message)
    {
      var digest := inner.Finalize();
      var outer := new Hasher(inner.alg);
      outer.Update(oKey);
      outer.Update(digest);
      assert outer.all == oKey + digest;
      MacIs(alg, key, message, oKey, digest);
      tag := outer.Finalize();
    }
  }

  /** The streaming tag equals the two-pass definition, however the message is cut. */
  method MacPieces(alg: Algorithm, key: seq<u8>, pieces: seq<seq<u8>>) returns (tag: seq<u8>)
    requires Fits(alg)
    ensures tag == Mac(alg, key, Concat(pieces))
  {
    var hmac := new Hmac(alg, key);
    for i := 0 to |pieces|
      invariant fresh(hmac) && fresh(hmac.inner) && fresh(hmac.inner.buf)
      invariant hmac.alg == alg && hmac.key == key && hmac.Valid()
      invariant hmac.message + Concat(pieces[i..]) == Concat(pieces)
    {
      assert pieces[i..][0] == pieces[i] && pieces[i..][1..] == pieces[i + 1..];
      Assoc(hmac.message, pieces[i], Concat(pieces[i + 1..]));
      hmac.Update(pieces[i]);
    }
    assert hmac.message + [] == hmac.message;
    tag := hmac.Finalize();
  }

  // ---- the definitions, byte by byte --------------------------------------------------------------

  /** Section 5.1.1 of FIPS 180-4: the message, a one bit, as few zeros as complete a block, and the number of bits. */
  lemma PaddedMeans(message: seq<u8>)
    ensures var n := |message|; var p := message + Padding(n);
            && |p| % 64 == 0 && n + 9 <= |p| < n + 9 + 64
            && p[..n] == message && p[n] == 0x80 && (forall i :: n < i < |p| - 8 ==> p[i] == 0)
            && FromBigEndian(p[|p| - 8..]) == n * 8 % 0x1_0000_0000_0000_0000
  {
    var n := |message|;
    var zeros, length := Zeros((119 - n % BLOCK) % BLOCK), LengthBytes(n * 8 % U64);
    var p := message + Padding(n);
    PaddedIsBlocks(n);
    assert p == message + [0x80] + zeros + length;
    assert p[|p| - 8..] == length;
    Power256Is();
    BigEndianReads(n * 8 % U64, 8);
  }

  lemma Power256Is()
    ensures Power256(4) == 0x1_0000_0000 && Power256(8) == 0x1_0000_0000_0000_0000
  {
    assert Power256(4) == 0x1_0000_0000;
  }

  /** The digest is the final words, each with its most significant byte first. */
  lemma {:induction false} WordsRead(h: seq<Word>, i: nat)
    requires i < |h|
    ensures FromBigEndian(WordsOut(h)[4 * i..4 * i + 4]) == h[i]
    decreases |h|
  {
    var out, rest := WordsOut(h), WordsOut(h[1..]);
    assert out == BigEndian(h[0], 4) + rest;
    if i == 0 {
      Power256Is();
      BigEndianReads(h[0], 4);
      assert out[0..4] == BigEndian(h[0], 4);
    } else {
      WordsRead(h[1..], i - 1);
      assert out[4 * i..4 * i + 4] == rest[4 * (i - 1)..4 * (i - 1) + 4];
    }
  }

  /** Section 2 of RFC 2104: a key longer than a block is hashed first; then zeros are added up to the block. */
  lemma KeyBlockMeans(alg: Algorithm, key: seq<u8>, i: nat)
    requires Fits(alg) && i < 64
    ensures var k := if |key| <= 64 then key else Digest(alg, key);
            |KeyBlock(alg, key)| == 64 && KeyBlock(alg, key)[i] == if i < |k| then k[i] else 0
  {
    assert |Digest(alg, key)| <= BLOCK;
  }

  /** The outer hash over the key block with 0x5c, then the inner hash over it with 0x36 and the message. */
  lemma MacMeans(alg: Algorithm, key: seq<u8>, message: seq<u8>, inner: seq<u8>, outer: seq<u8>)
    requires |inner| == |outer| == |KeyBlock(alg, key)|
    requires forall i :: 0 <= i < |inner| ==> inner[i] == Xor(0x36, KeyBlock(alg, key)[i])
    requires forall i :: 0 <= i < |outer| ==> outer[i] == Xor(0x5c, KeyBlock(alg, key)[i])
    ensures Mac(alg, key, message) == Digest(alg, outer + Digest(alg, inner + message))
  {
    assert inner == XorAll(KeyBlock(alg, key), 0x36) && outer == XorAll(KeyBlock(alg, key), 0x5c);
  }
}
