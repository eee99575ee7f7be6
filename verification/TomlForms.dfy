/** The forms of TOML that the encoder never writes: numbers in other bases, with signs and underscores, literal
    strings and hexadecimal escapes. */
module TomlForms {
  import opened Wrappers
  import opened Seqs
  import opened Text
  import opened Decimal
  import opened Values
  import opened TomlParse
  import TomlTree
  import opened TomlLexical
  import opened Numerals

  // ---- underscores -------------------------------------------------------------------------------------

  /** `t` is `s` with underscores put in anywhere. */
  predicate Separated(t: string, s: string) {
    if t == [] then s == []
    else if t[0] == '_' then Separated(t[1..], s)
    else s != [] && t[0] == s[0] && Separated(t[1..], s[1..])
  }

  lemma {:induction false} SeparatedIs(t: string, s: string)
    requires Separated(t, s)
    ensures WithoutUnderscores(t) == s
    ensures forall i :: 0 <= i < |t| ==> t[i] == '_' || t[i] in s
    decreases |t|
  {
    if t != [] {
      if t[0] == '_' {
        SeparatedIs(t[1..], s);
      } else {
        SeparatedIs(t[1..], s[1..]);
        HeadTail(s);
      }
    }
  }

  lemma GlyphIsPlain(c: char, d: nat)
    requires Spells(c, d)
    ensures c !in {'+', '-', '_', '.'} && !EndsAtom(c) && !IsWhitespace(c) && c !in {'\"', '\'', '[', '{'}
    ensures d < 10 ==> IsDigit(c)
  {}

  // ---- numbers ------------------------------------------------------------------------------------------

  predicate IsBase(p: char, base: int) {
    (p, base) in {('x', 16), ('o', 8), ('b', 2)}
  }

  /** Hexadecimal, octal and binary: the number that the digits make, with underscores anywhere, or no number. */
  lemma RadixMeans(p: char, base: int, sign: Sign, s: string, ds: seq<nat>, t: string)
    requires IsBase(p, base) && s != [] && IsSpelled(s, ds, base) && Separated(t, SignText(sign) + s)
    ensures RadixInt(['0', p] + t) == NumberValue(sign, PlaceValue(ds, base))
  {
    SeparatedIs(t, SignText(sign) + s);
    BothParsers(sign, s, ds, base, SignText(sign) + s);
    Parts(['0', p], t);
  }

  lemma {:induction false} SpelledIsPlain(s: string, ds: seq<nat>, base: nat, i: nat)
    requires IsSpelled(s, ds, base) && i < |s|
    ensures s[i] !in {'+', '-', '_', '.'} && !EndsAtom(s[i]) && !IsWhitespace(s[i]) && s[i] !in {'\"', '\'', '[', '{'}
    ensures base <= 10 ==> IsDigit(s[i])
  {
    GlyphIsPlain(s[i], ds[i]);
  }

  /** The characters of a number with its sign and underscores. */
  predicate IsNumberChar(c: char) {
    !EndsAtom(c) && !IsWhitespace(c) && c !in {'\"', '\'', '[', '{'}
  }

  lemma NumberChars(sign: Sign, s: string, ds: seq<nat>, base: nat, t: string)
    requires IsSpelled(s, ds, base) && Separated(t, SignText(sign) + s)
    ensures forall i :: 0 <= i < |t| ==> IsNumberChar(t[i])
  {
    SeparatedIs(t, SignText(sign) + s);
    forall i | 0 <= i < |t|
      ensures IsNumberChar(t[i])
    {
      NumberChar(sign, s, ds, base, t[i]);
    }
  }

  lemma NumberChar(sign: Sign, s: string, ds: seq<nat>, base: nat, c: char)
    requires IsSpelled(s, ds, base) && (c == '_' || c in SignText(sign) + s)
    ensures IsNumberChar(c)
  {
    if c in s {
      var j :| 0 <= j < |s| && s[j] == c;
      SpelledIsPlain(s, ds, base, j);
    } else {
      assert c in {'_', '+', '-'};
    }
  }

  lemma TokenReads(ft: FloatText, tok: string, rest: string, depth: nat)
    requires tok != [] && (forall i :: 0 <= i < |tok| ==> IsNumberChar(tok[i])) && Terminated(rest)
    requires depth <= MAX_DEPTH
    ensures ParseValue(ft, tok + rest, depth) == Ok((Atom(ft, tok), rest))
  {
    AtomParses(ft, tok, rest);
    assert (tok + rest)[0] == tok[0];
    assert SkipInline(tok + rest) == tok + rest;
  }

  lemma RadixWord(p: char, base: int, t: string, tok: string)
    requires IsBase(p, base) && tok == ['0', p] + t && forall i :: 0 <= i < |t| ==> IsNumberChar(t[i])
    ensures Keyword(tok).None? && forall i :: 0 <= i < |tok| ==> IsNumberChar(tok[i])
  {
    assert tok[0] == '0';
    forall i | 0 <= i < |tok|
      ensures IsNumberChar(tok[i])
    {
      if i >= 2 { assert tok[i] == t[i - 2]; }
    }
  }

  lemma RadixAtom(ft: FloatText, tok: string)
    requires Keyword(tok).None? && RadixInt(tok).Some?
    ensures Atom(ft, tok) == RadixInt(tok).value
  {}

  /** A number in base sixteen, eight or two, as a value anywhere in a document. */
  lemma RadixReads(ft: FloatText, p: char, base: int, sign: Sign, s: string, ds: seq<nat>, t: string, rest: string,
                   depth: nat)
    requires IsBase(p, base) && s != [] && IsSpelled(s, ds, base) && Separated(t, SignText(sign) + s)
    requires NumberValue(sign, PlaceValue(ds, base)).Some? && Terminated(rest) && depth <= MAX_DEPTH
    ensures ParseValue(ft, ['0', p] + t + rest, depth) == Ok((NumberValue(sign, PlaceValue(ds, base)).value, rest))
  {
    var tok := ['0', p] + t;
    RadixMeans(p, base, sign, s, ds, t);
    NumberChars(sign, s, ds, base, t);
    RadixWord(p, base, t, tok);
    TokenReads(ft, tok, rest, depth);
    RadixAtom(ft, tok);
  }

  /** A decimal numeral is no word, and is in no other base. */
  lemma DecimalIsNoWord(sign: Sign, s: string, ds: seq<nat>, t: string)
    requires s != [] && IsSpelled(s, ds, 10) && Separated(t, SignText(sign) + s)
    ensures t != [] && Keyword(t).None? && RadixInt(t).None?
  {
    SeparatedIs(t, SignText(sign) + s);
    assert t == [] ==> WithoutUnderscores(t) == [];
    forall i | 0 <= i < |t|
      ensures IsDecimalChar(t[i])
    {
      DecimalChar(sign, s, ds, t[i]);
    }
    DecimalChars(t);
  }

  predicate IsDecimalChar(c: char) {
    IsDigit(c) || c == '_' || c == '+' || c == '-'
  }

  lemma DecimalChar(sign: Sign, s: string, ds: seq<nat>, c: char)
    requires IsSpelled(s, ds, 10) && (c == '_' || c in SignText(sign) + s)
    ensures IsDecimalChar(c)
  {
    if c in s {
      var j :| 0 <= j < |s| && s[j] == c;
      SpelledIsPlain(s, ds, 10, j);
    }
  }

  lemma DecimalChars(t: string)
    requires t != [] && forall i :: 0 <= i < |t| ==> IsDecimalChar(t[i])
    ensures Keyword(t).None? && RadixInt(t).None?
  {
    assert IsDecimalChar(t[0]) && (|t| > 1 ==> IsDecimalChar(t[1]));
  }

  lemma NoPoint(sign: Sign, s: string, ds: seq<nat>)
    requires IsSpelled(s, ds, 10)
    ensures !Contains(SignText(sign) + s, {'.', 'e', 'E'})
  {
    var t := SignText(sign) + s;
    forall i | 0 <= i < |t|
      ensures t[i] !in {'.', 'e', 'E'}
    {
      var k := |SignText(sign)|;
      if i >= k { SpelledIsPlain(s, ds, 10, i - k); }
    }
  }

  /** A decimal number, signed or not, with leading zeros and underscores anywhere; past the range it is a string. */
  lemma DecimalReads(ft: FloatText, sign: Sign, s: string, ds: seq<nat>, t: string, rest: string, depth: nat)
    requires s != [] && IsSpelled(s, ds, 10) && Separated(t, SignText(sign) + s)
    requires Terminated(rest) && depth <= MAX_DEPTH
    ensures var n := NumberValue(sign, PlaceValue(ds, 10));
            ParseValue(ft, t + rest, depth) == Ok((if n.Some? then n.value else Str(t), rest))
  {
    SeparatedIs(t, SignText(sign) + s);
    DecimalIsNoWord(sign, s, ds, t);
    NoPoint(sign, s, ds);
    BothParsers(sign, s, ds, 10, SignText(sign) + s);
    NumberChars(sign, s, ds, 10, t);
    TokenReads(ft, t, rest, depth);
  }

  /** A float with a point or an exponent, with underscores anywhere, is what its text without them is. */
  lemma FloatReads(ft: FloatText, s: string, t: string, f: Float, rest: string, depth: nat)
    requires Separated(t, s) && Contains(s, {'.', 'e', 'E'}) && ft.parse(s) == Some(f)
    requires (forall i :: 0 <= i < |t| ==> IsNumberChar(t[i])) && (|t| > 1 ==> t[1] !in {'x', 'o', 'b'})
    requires Keyword(t).None? && Terminated(rest) && depth <= MAX_DEPTH
    ensures ParseValue(ft, t + rest, depth) == Ok((Value.Float(f), rest))
  {
    SeparatedIs(t, s);
    assert t == [] ==> s == [];
    TokenReads(ft, t, rest, depth);
  }

  /** A plus before infinity, and any sign before not-a-number, changes nothing. */
  lemma SignedWords(ft: FloatText)
    ensures Atom(ft, "+inf") == Atom(ft, "inf") == Value.Float(Infinity(false))
    ensures Atom(ft, "-inf") == Value.Float(Infinity(true))
    ensures Atom(ft, "+nan") == Atom(ft, "-nan") == Atom(ft, "nan") == Value.Float(NaN)
  {}

  // ---- strings --------------------------------------------------------------------------------------------

  predicate IsLiteral(s: string) {
    '\'' !in s && '\n' !in s
  }

  lemma {:induction false} LiteralBodyReads(s: string, out: string, rest: string)
    requires IsLiteral(s)
    ensures LiteralBody(s + ("\'" + rest), out) == Ok((out + s, rest))
    decreases |s|
  {
    if s == [] {
      assert s + ("\'" + rest) == "\'" + rest && out + s == out;
    } else {
      assert s[0] in s;
      assert (s + ("\'" + rest))[1..] == s[1..] + ("\'" + rest);
      LiteralBodyReads(s[1..], out + [s[0]], rest);
      SplitFirst(out, s);
    }
  }

  /** A literal string is its own text, as a value and as a key; only two quotes with a third behind them are not. */
  lemma LiteralReads(ft: FloatText, s: string, rest: string, depth: nat)
    requires IsLiteral(s) && depth <= MAX_DEPTH && !(s == [] && rest != [] && rest[0] == '\'')
    ensures ParseValue(ft, "\'" + (s + ("\'" + rest)), depth) == Ok((Str(s), rest))
    ensures KeySegment("\'" + (s + ("\'" + rest))) == Ok((s, rest))
  {
    var body := s + ("\'" + rest);
    var t := "\'" + body;
    assert t[1..] == body;
    LiteralBodyReads(s, [], rest);
    assert [] + s == s;
    assert SkipInline(t) == t;
    assert !("\'\'\'" <= t) by {
      if s != [] {
        assert t[1] == s[0] && s[0] in s;
      } else {
        assert t == "\'" + ("\'" + rest);
        assert rest != [] ==> t[2] == rest[0];
      }
    }
  }

  predicate IsScalar(n: nat) {
    n < 0xD800 || 0xE000 <= n < 0x11_0000
  }

  /** Four or eight hexadecimal digits name the character with that number, if there is one. */
  lemma HexEscapeReads(wide: bool, s: string, ds: seq<nat>, rest: string)
    requires IsSpelled(s, ds, 16) && |s| == if wide then 8 else 4
    ensures var n := PlaceValue(ds, 16); var r := ParseEscape((if wide then "U" else "u") + (s + rest));
            if IsScalar(n) then r == Ok((n as char, rest)) else r == Err(TomlTree.BadEscape)
  {
    var k := if wide then 8 else 4;
    var e := (if wide then "U" else "u") + (s + rest);
    assert e[1..] == s + rest;
    Parts(s, rest);
    SignedParses(Unsigned, s, ds, 16, 0, 0xFFFF_FFFF);
    assert "" + s == s;
    assert ParseEscape(e) == ParseHex(s + rest, k);
  }

  /** The short escapes are the characters that TOML gives them. */
  lemma ShortEscapes(rest: string)
    ensures ParseEscape("b" + rest) == Ok((0x08 as char, rest)) && ParseEscape("t" + rest) == Ok((0x09 as char, rest))
    ensures ParseEscape("n" + rest) == Ok((0x0A as char, rest)) && ParseEscape("f" + rest) == Ok((0x0C as char, rest))
    ensures ParseEscape("r" + rest) == Ok((0x0D as char, rest))
    ensures ParseEscape("\"" + rest) == Ok((0x22 as char, rest)) && ParseEscape("\\" + rest) == Ok((0x5C as char, rest))
  {
    assert ("b" + rest)[1..] == rest && ("t" + rest)[1..] == rest && ("n" + rest)[1..] == rest;
    assert ("f" + rest)[1..] == rest && ("r" + rest)[1..] == rest;
    assert ("\"" + rest)[1..] == rest && ("\\" + rest)[1..] == rest;
  }
}
