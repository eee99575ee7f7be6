/** Chunked transfer coding: the writer of `http/server.rs`, and what its reader and the client's share. */
module ChunkedCoding {
  import opened Wrappers
  import opened Seqs
  import opened Values
  import opened Text
  import opened Numerals

  const U64_MAX := 0xFFFF_FFFF_FFFF_FFFF

  datatype HttpError = UnexpectedEof | BadText | BadChunkSize | ChunkTooLarge

  /** UTF-8 decoding of a line, which fails on malformed bytes. */
  type Utf8 = seq<u8> -> Option<string>

  predicate IsAscii(b: seq<u8>) {
    forall i :: 0 <= i < |b| ==> b[i] < 128
  }

  function AsText(b: seq<u8>): (s: string)
    requires IsAscii(b)
    ensures |s| == |b|
  {
    seq(|b|, i requires 0 <= i < |b| => b[i] as char)
  }

  /** ASCII bytes decode to themselves. */
  ghost predicate ReadsAscii(utf8: Utf8) {
    forall b :: IsAscii(b) ==> utf8(b) == Some(AsText(b))
  }

  // ---- hexadecimal ----------------------------------------------------------------------------

  function HexDigit(d: nat): u8
    requires d < 16
  {
    if d < 10 then 48 + d else 55 + d
  }

  /** `{:X}`. */
  function HexText(n: nat): (b: seq<u8>)
    ensures b != []
  {
    if n < 16 then [HexDigit(n)] else HexText(n / 16) + [HexDigit(n % 16)]
  }

  function HexValue(c: char): Option<nat> {
    if '0' <= c <= '9' then Some(c as nat - 48)
    else if 'A' <= c <= 'F' then Some(c as nat - 55)
    else if 'a' <= c <= 'f' then Some(c as nat - 87)
    else None
  }

  function ParseDigits(s: string): Option<nat> {
    if s == [] then Some(0) else
      var high, low := ParseDigits(s[..|s| - 1]), HexValue(s[|s| - 1]);
      if high.None? || low.None? then None else Some(high.value * 16 + low.value)
  }

  /** `u64::from_str_radix(s, 16)`. */
  function ParseHex(s: string): Option<nat> {
    var t := if |s| > 1 && s[0] == '+' then s[1..] else s;
    var n := ParseDigits(t);
    if t == [] || n.None? || n.value > U64_MAX then None else n
  }

  predicate IsHexByte(b: u8) {
    48 <= b <= 57 || 65 <= b <= 70
  }

  lemma {:induction false} HexBytes(n: nat)
    ensures forall i :: 0 <= i < |HexText(n)| ==> IsHexByte(HexText(n)[i])
  {
    if n >= 16 { HexBytes(n / 16); }
  }

  lemma HexIsAscii(n: nat)
    ensures IsAscii(HexText(n))
  {
    HexBytes(n);
  }

  lemma {:induction false} DigitsRead(n: nat)
    ensures IsAscii(HexText(n)) && ParseDigits(AsText(HexText(n))) == Some(n)
  {
    HexIsAscii(n);
    var t := AsText(HexText(n));
    if n < 16 {
      assert t[..0] == [];
      assert HexValue(t[0]) == Some(n);
    } else {
      DigitsRead(n / 16);
      assert t[..|t| - 1] == AsText(HexText(n / 16));
      assert HexValue(t[|t| - 1]) == Some(n % 16);
    }
  }

  /** Every size that fits 64 bits is read back as written. */
  lemma HexReads(n: nat)
    requires n <= U64_MAX
    ensures IsAscii(HexText(n)) && ParseHex(AsText(HexText(n))) == Some(n)
  {
    DigitsRead(n);
    HexBytes(n);
    var t := AsText(HexText(n));
    assert IsHexByte(HexText(n)[0]);
    assert t[0] != '+';
  }

  lemma {:induction false} DigitsMean(s: string, ds: seq<nat>)
    requires IsSpelled(s, ds, 16)
    ensures ParseDigits(s) == Some(PlaceValue(ds, 16))
    decreases |s|
  {
    if s != [] {
      var n := |s| - 1;
      DigitsMean(s[..n], ds[..n]);
      ByLastDigit(ds, 16);
      HexGlyph(s[n], ds[n]);
    }
  }

  lemma HexGlyph(c: char, d: nat)
    requires Spells(c, d)
    ensures HexValue(c) == Some(d)
  {
    if d < 10 {
      assert c as int == '0' as int + d;
    } else {
      assert c as int == 'a' as int + (d - 10) || c as int == 'A' as int + (d - 10);
    }
  }

  /** Any hexadecimal numeral, in either case, with leading zeros or a plus, is its number, if that fits 64 bits. */
  lemma HexMeans(plus: bool, s: string, ds: seq<nat>)
    requires s != [] && IsSpelled(s, ds, 16)
    ensures var n := PlaceValue(ds, 16);
            ParseHex(if plus then "+" + s else s) == if n <= U64_MAX then Some(n) else None
  {
    DigitsMean(s, ds);
    assert Spells(s[0], ds[0]) && s[0] != '+';
    assert ("+" + s)[1..] == s;
  }

  lemma OnlyHexDigits(c: char)
    ensures HexValue(c).Some? <==> IsGlyph(c, 16)
  {
    if HexValue(c).Some? { assert Spells(c, HexValue(c).value); }
  }

  /** Anything but hexadecimal digits, with at most a plus before them, is no size. */
  lemma {:induction false} NotHex(s: string, i: nat)
    requires i < |s| && !IsGlyph(s[i], 16)
    ensures ParseDigits(s) == None
    decreases |s|
  {
    OnlyHexDigits(s[i]);
    if i < |s| - 1 { NotHex(s[..|s| - 1], i); }
  }

  lemma NoSize(s: string, i: nat)
    requires i < |s| && !IsGlyph(s[i], 16) && (i == 0 ==> s[0] != '+' || |s| == 1)
    ensures ParseHex(s) == None && ParseHex([]) == None
  {
    if |s| > 1 && s[0] == '+' { NotHex(s[1..], i - 1); } else { NotHex(s, i); }
  }

  // ---- lines ------------------------------------------------------------------------------------

  /** `read_line`: up to and with the first line feed, or everything. */
  function SplitLine(s: seq<u8>): (r: (seq<u8>, seq<u8>))
    ensures r.0 + r.1 == s && (s != [] ==> r.0 != [])
  {
    if s == [] then ([], [])
    else if s[0] == 10 then ([s[0]], s[1..])
    else
      var r := SplitLine(s[1..]);
      ([s[0]] + r.0, r.1)
  }

  /** `split(';').next()`. */
  function UpToSemicolon(s: string): string {
    if s == [] || s[0] == ';' then [] else [s[0]] + UpToSemicolon(s[1..])
  }

  function SizeOf(utf8: Utf8, line: seq<u8>): Result<nat, HttpError> {
    var t := utf8(line);
    if t.None? then Err(BadText) else
      var n := ParseHex(Trim(UpToSemicolon(Trim(t.value))));
      if n.None? then Err(BadChunkSize) else Ok(n.value)
  }

  /** Whether a line is blank. */
  function BlankOf(utf8: Utf8, line: seq<u8>): Result<bool, HttpError> {
    var t := utf8(line);
    if t.None? then Err(BadText) else Ok(Trim(t.value) == [])
  }

  /** How the readers understand a line: as a chunk size, and as the blank line that ends the trailers. */
  datatype LineReader = LineReader(size: seq<u8> -> Result<nat, HttpError>, blank: seq<u8> -> Result<bool, HttpError>)

  function Reading(utf8: Utf8): LineReader {
    LineReader((line: seq<u8>) => SizeOf(utf8, line), (line: seq<u8>) => BlankOf(utf8, line))
  }

  /** Skips trailer lines up to a blank one or the end of the input. */
  function Trailers(lines: LineReader, s: seq<u8>): Result<seq<u8>, HttpError>
    decreases |s|
  {
    if s == [] then Ok([]) else
      var (line, rest) := SplitLine(s);
      var blank := lines.blank(line);
      if blank.Err? then Err(blank.error)
      else if blank.value then Ok(rest)
      else Trailers(lines, rest)
  }

  // ---- writing ----------------------------------------------------------------------------------

  const CRLF: seq<u8> := [13, 10]
  const END: seq<u8> := [48, 13, 10, 13, 10]

  function SizeLine(n: nat): seq<u8> {
    HexText(n) + CRLF
  }

  function Chunk(c: seq<u8>): seq<u8> {
    SizeLine(|c|) + c + CRLF
  }

  /** What `write_response` sends for a stream: empty chunks would end it, so they are skipped. */
  function Wire(chunks: seq<seq<u8>>): seq<u8> {
    if chunks == [] then END else (if chunks[0] == [] then [] else Chunk(chunks[0])) + Wire(chunks[1..])
  }

  function Join(chunks: seq<seq<u8>>): seq<u8> {
    if chunks == [] then [] else chunks[0] + Join(chunks[1..])
  }

  // ---- reading a size line ------------------------------------------------------------------------

  lemma {:induction false} LineEnds(a: seq<u8>, rest: seq<u8>)
    requires forall i :: 0 <= i < |a| ==> a[i] != 10
    ensures SplitLine(a + [10] + rest) == (a + [10], rest)
  {
    if a == [] {
      assert a + [10] + rest == [10] + rest;
    } else {
      var tail := a[1..];
      HeadTail(a);
      assert a + [10] + rest == [a[0]] + (tail + [10] + rest);
      assert (a + [10] + rest)[1..] == tail + [10] + rest;
      LineEnds(tail, rest);
      assert [a[0]] + (tail + [10]) == a + [10];
    }
  }

  lemma SizeLineSplits(n: nat, rest: seq<u8>)
    ensures SplitLine(SizeLine(n) + rest) == (SizeLine(n), rest)
  {
    HexBytes(n);
    var a := HexText(n) + [13];
    forall i | 0 <= i < |a|
      ensures a[i] != 10
    {
      if i < |HexText(n)| { assert IsHexByte(HexText(n)[i]); }
    }
    assert a + [10] == SizeLine(n);
    LineEnds(a, rest);
  }

  predicate Solid(s: string) {
    forall i :: 0 <= i < |s| ==> !IsWhitespace(s[i]) && s[i] != ';'
  }

  lemma {:induction false} NoSemicolon(s: string)
    requires Solid(s)
    ensures UpToSemicolon(s) == s
  {
    if s != [] {
      HeadTail(s);
      NoSemicolon(s[1..]);
    }
  }

  lemma TrimLine(s: string)
    requires Solid(s) && s != []
    ensures Trim(s + ['\r', '\n']) == s && Trim(s) == s
  {
    var t := s + ['\r', '\n'];
    assert t[0] == s[0] && TrimStart(t) == t;
    assert t[..|t| - 1] == s + ['\r'];
    assert (s + ['\r'])[..|s|] == s;
    assert TrimEnd(s + ['\r']) == TrimEnd(s) == s;
  }

  lemma SizeLineText(n: nat)
    ensures IsAscii(SizeLine(n)) && IsAscii(HexText(n)) && Solid(AsText(HexText(n)))
    ensures AsText(SizeLine(n)) == AsText(HexText(n)) + ['\r', '\n']
  {
    HexBytes(n);
    HexIsAscii(n);
    var t := AsText(HexText(n));
    forall i | 0 <= i < |t|
      ensures !IsWhitespace(t[i]) && t[i] != ';'
    {
      assert IsHexByte(HexText(n)[i]);
    }
  }

  lemma SizeLineReads(utf8: Utf8, n: nat)
    requires ReadsAscii(utf8) && n <= U64_MAX
    ensures SizeOf(utf8, SizeLine(n)) == Ok(n)
  {
    SizeLineText(n);
    HexReads(n);
    var t := AsText(HexText(n));
    TrimLine(t);
    NoSemicolon(t);
  }

  lemma BlankLineReads(utf8: Utf8)
    requires ReadsAscii(utf8)
    ensures BlankOf(utf8, CRLF) == Ok(true)
  {
    assert IsAscii(CRLF) && AsText(CRLF) == ['\r', '\n'];
    assert TrimStart(['\r', '\n']) == TrimStart(['\n']) == TrimStart([]) by {
      assert ['\r', '\n'][1..] == ['\n'];
    }
  }

  lemma {:induction false} CutAtSemicolon(s: string, ext: string)
    requires ';' !in s
    ensures UpToSemicolon(s + (";" + ext)) == s
    decreases |s|
  {
    if s == [] {
      assert s + (";" + ext) == ";" + ext;
    } else {
      assert s[0] in s && (s + (";" + ext))[1..] == s[1..] + (";" + ext);
      CutAtSemicolon(s[1..], ext);
      HeadTail(s);
    }
  }

  /** Chunk extensions, section 7.1.1 of RFC 9112, are ignored: what follows a semicolon does not matter. */
  lemma ExtensionsIgnored(utf8: Utf8, line: seq<u8>, text: string, ext: string)
    requires utf8(line) == Some(text + (";" + ext)) && ';' !in text && text != [] && ext != []
    requires !IsWhitespace(text[0]) && !IsWhitespace(text[|text| - 1]) && !IsWhitespace(ext[|ext| - 1])
    ensures SizeOf(utf8, line) == if ParseHex(text).Some? then Ok(ParseHex(text).value) else Err(BadChunkSize)
  {
    var all := text + (";" + ext);
    assert all[0] == text[0] && all[|all| - 1] == ext[|ext| - 1];
    assert TrimStart(all) == all && TrimEnd(all) == all && TrimStart(text) == text && TrimEnd(text) == text;
    CutAtSemicolon(text, ext);
  }

  /** The lines the writer produces are understood. */
  ghost predicate Understands(lines: LineReader) {
    && (forall n: nat :: n <= U64_MAX ==> lines.size(SizeLine(n)) == Ok(n))
    && lines.blank(CRLF) == Ok(true)
  }

  lemma ReadingUnderstands(utf8: Utf8)
    requires ReadsAscii(utf8)
    ensures Understands(Reading(utf8))
  {
    forall n: nat | n <= U64_MAX
      ensures Reading(utf8).size(SizeLine(n)) == Ok(n)
    {
      SizeLineReads(utf8, n);
    }
    BlankLineReads(utf8);
  }

  /** After the last size line, the blank line ends the coding. */
  lemma BlankLineEnds(lines: LineReader, rest: seq<u8>)
    requires Understands(lines)
    ensures Trailers(lines, CRLF + rest) == Ok(rest)
  {
    assert [13] + [10] == CRLF;
    LineEnds([13], rest);
  }

  lemma {:induction false} LineSplits(line: seq<u8>, rest: seq<u8>)
    requires SplitLine(line) == (line, []) && line != [] && line[|line| - 1] == 10
    ensures SplitLine(line + rest) == (line, rest)
    decreases |line|
  {
    HeadTail(line);
    if line[0] == 10 {
      assert line == [10] && ([10] + rest)[1..] == rest;
    } else {
      var tail := line[1..];
      assert SplitLine(tail) == (tail, []);
      assert (line + rest)[1..] == tail + rest;
      LineSplits(tail, rest);
    }
  }

  predicate IsTrailer(lines: LineReader, line: seq<u8>) {
    line != [] && line[|line| - 1] == 10 && SplitLine(line) == (line, []) && lines.blank(line) == Ok(false)
  }

  /** Trailers, whatever they are, are skipped up to the blank line. */
  lemma {:induction false} TrailersSkipped(lines: LineReader, ts: seq<seq<u8>>, rest: seq<u8>)
    requires Understands(lines) && forall i :: 0 <= i < |ts| ==> IsTrailer(lines, ts[i])
    ensures Trailers(lines, Join(ts) + (CRLF + rest)) == Ok(rest)
    decreases |ts|
  {
    if ts == [] {
      assert [] + (CRLF + rest) == CRLF + rest;
      BlankLineEnds(lines, rest);
    } else {
      var more := Join(ts[1..]) + (CRLF + rest);
      Assoc(ts[0], Join(ts[1..]), CRLF + rest);
      TrailersSkipped(lines, ts[1..], rest);
      LineSplits(ts[0], more);
      SkipsTrailer(lines, ts[0], more);
    }
  }

  lemma SkipsTrailer(lines: LineReader, line: seq<u8>, more: seq<u8>)
    requires IsTrailer(lines, line) && SplitLine(line + more) == (line, more)
    ensures Trailers(lines, line + more) == Trailers(lines, more)
  {}

  lemma EndIsZeroLine(rest: seq<u8>)
    ensures END + rest == SizeLine(0) + (CRLF + rest)
  {
    assert END == SizeLine(0) + CRLF;
    Assoc(SizeLine(0), CRLF, rest);
  }

  // ---- the server's reader ------------------------------------------------------------------------

  /** A body, or nothing when it would be longer than `max`; and the unread rest. */
  function ReadBody(lines: LineReader, max: nat, s: seq<u8>,
                    body: seq<u8>): Result<(Option<seq<u8>>, seq<u8>), HttpError>
    decreases |s|
  {
    if s == [] then Err(UnexpectedEof) else
      var (line, rest) := SplitLine(s);
      var size := lines.size(line);
      if size.Err? then Err(size.error)
      else if size.value == 0 then
        var end := Trailers(lines, rest);
        if end.Err? then Err(end.error) else Ok((Some(body), end.value))
      else if SaturatingSum(|body|, size.value) > max then Ok((None, rest))
      else if |rest| < size.value + 2 then Err(UnexpectedEof)
      else ReadBody(lines, max, rest[size.value + 2..], body + rest[..size.value])
  }

  function SaturatingSum(a: nat, b: nat): nat {
    if a + b > U64_MAX then U64_MAX else a + b
  }

  /** Too long for the limit; the largest limit there is allows everything. */
  predicate Over(max: nat, length: nat) {
    length > max && max < U64_MAX
  }

  /** One chunk at the front of the stream is read and left behind. */
  lemma ChunkReads(lines: LineReader, max: nat, c: seq<u8>, rest: seq<u8>, body: seq<u8>)
    requires Understands(lines) && 0 < |c| <= U64_MAX && max <= U64_MAX
    ensures ReadBody(lines, max, Chunk(c) + rest, body) ==
            if Over(max, |body| + |c|) then Ok((None, c + CRLF + rest)) else ReadBody(lines, max, rest, body + c)
  {
    var after := c + CRLF + rest;
    ChunkParts(c, rest);
    SizeLineSplits(|c|, after);
    assert after[..|c|] == c && after[|c| + 2..] == rest;
  }

  lemma ChunkParts(c: seq<u8>, rest: seq<u8>)
    ensures Chunk(c) + rest == SizeLine(|c|) + (c + CRLF + rest)
  {
    Assoc(SizeLine(|c|), c, CRLF);
    Assoc(SizeLine(|c|), c + CRLF, rest);
  }

  /** For every list of chunks the server reads back their concatenation and stops exactly at the end of the
      coding, or reports a body over the limit. */
  lemma {:induction false} ServerReadsBack(lines: LineReader, max: nat, chunks: seq<seq<u8>>, body: seq<u8>,
                                           rest: seq<u8>)
    requires Understands(lines) && max <= U64_MAX && !Over(max, |body|)
    requires forall i :: 0 <= i < |chunks| ==> |chunks[i]| <= U64_MAX
    ensures var r := ReadBody(lines, max, Wire(chunks) + rest, body); var all := body + Join(chunks);
            if Over(max, |all|) then r.Ok? && r.value.0 == None else r == Ok((Some(all), rest))
    decreases |chunks|
  {
    if chunks == [] {
      EndIsZeroLine(rest);
      SizeLineSplits(0, CRLF + rest);
      BlankLineEnds(lines, rest);
      assert body + [] == body;
    } else {
      var c, more := chunks[0], Wire(chunks[1..]);
      Assoc(body, c, Join(chunks[1..]));
      if c == [] {
        assert [] + more == more && body + [] == body;
        ServerReadsBack(lines, max, chunks[1..], body, rest);
      } else {
        Assoc(Chunk(c), more, rest);
        ChunkReads(lines, max, c, more + rest, body);
        if !Over(max, |body| + |c|) { ServerReadsBack(lines, max, chunks[1..], body + c, rest); }
      }
    }
  }

  // ---- the layout -----------------------------------------------------------------------------------

  /** Section 7.1 of RFC 9112: each chunk is its size, a line end, its bytes and a line end; then a size of zero, with
      no trailers. */
  lemma Layout(chunks: seq<seq<u8>>)
    ensures Wire([]) == [48, 13, 10, 13, 10]
    ensures chunks != [] && chunks[0] != [] ==>
            Wire(chunks) == HexText(|chunks[0]|) + [13, 10] + chunks[0] + [13, 10] + Wire(chunks[1..])
    ensures chunks != [] && chunks[0] == [] ==> Wire(chunks) == Wire(chunks[1..])
  {
    if chunks != [] && chunks[0] == [] { assert [] + Wire(chunks[1..]) == Wire(chunks[1..]); }
  }
}
