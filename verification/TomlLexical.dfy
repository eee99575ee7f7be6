/** Keys, strings and scalars: what the TOML encoder writes, the parser reads back. */
module TomlLexical {
  import opened Wrappers
  import opened Seqs
  import opened Text
  import opened Decimal
  import opened Values
  import opened TomlTree
  import opened TomlParse
  import opened TomlEncode

  predicate IsBlank(c: char) { IsInlineSpace(c) || c == '\n' || c == '#' }

  /** What may follow a value: the end, or a character no bare token contains. */
  predicate Terminated(rest: string) { rest == [] || EndsAtom(rest[0]) }

  // ---- strings and keys ------------------------------------------------------

  lemma HexParses(n: int, t: string)
    requires 0 <= n < 0x20
    ensures ParseHex("00" + [DigitChar(n / 16), DigitChar(n % 16)] + t, 4) == Ok((n as char, t))
  {
    var hex := "00" + [DigitChar(n / 16), DigitChar(n % 16)];
    Parts(hex, t);
    assert DigitsValue("", 16) == Some(0);
    assert DigitsValue("0", 16) == Some(0);
    assert "00"[..1] == "0";
    assert DigitsValue("00", 16) == Some(0);
    assert hex[..3][..2] == "00";
    assert DigitsValue(hex[..3], 16) == Some(n / 16);
    assert DigitsValue(hex, 16) == Some(n);
  }

  lemma EscapedCharParses(c: char, t: string, out: string)
    ensures BasicBody(EscapeChar(c) + t, out) == BasicBody(t, out + [c])
  {
    var e := EscapeChar(c);
    Parts(e, t);
    if |e| == 1 {
      assert e == [c];
    } else if |e| == 2 {
      assert (e + t)[1..][1..] == t;
    } else {
      assert (e + t)[1..][1..] == e[2..] + t;
      assert e[2..] == "00" + [DigitChar(c as int / 16), DigitChar(c as int % 16)];
      HexParses(c as int, t);
      assert ParseEscape((e + t)[1..]) == Ok((c, t));
    }
  }

  lemma {:induction false} EscapeParses(s: string, out: string, rest: string)
    ensures BasicBody(Escape(s) + "\"" + rest, out) == Ok((out + s, rest))
  {
    if s == [] {
      assert Escape(s) + "\"" + rest == "\"" + rest;
      assert out + s == out;
    } else {
      var t := Escape(s[1..]) + "\"" + rest;
      assert Escape(s) + "\"" + rest == EscapeChar(s[0]) + t;
      EscapedCharParses(s[0], t, out);
      EscapeParses(s[1..], out + [s[0]], rest);
      SplitFirst(out, s);
    }
  }

  lemma BasicStringParses(s: string, rest: string)
    ensures var t := BasicString(s) + rest; t[0] == '\"' && BasicBody(t[1..], []) == Ok((s, rest))
  {
    assert (BasicString(s) + rest)[1..] == Escape(s) + "\"" + rest;
    EscapeParses(s, [], rest);
    assert [] + s == s;
  }

  /** No basic string the encoder writes opens with three quotes. */
  lemma NoTripleQuote(s: string, rest: string)
    requires rest == [] || rest[0] != '\"'
    ensures !("\"\"\"" <= BasicString(s) + rest)
  {
    var t := BasicString(s) + rest;
    if s == [] {
      assert t == "\"\"" + rest;
      assert rest != [] ==> t[2] == rest[0] != '\"';
    } else {
      assert Escape(s) == EscapeChar(s[0]) + Escape(s[1..]);
      assert t[1] == EscapeChar(s[0])[0];
    }
  }

  lemma {:induction false} BareLengthOf(k: string, rest: string)
    requires forall i :: 0 <= i < |k| ==> IsBareChar(k[i])
    requires rest == [] || !IsBareChar(rest[0])
    ensures BareLength(k + rest) == |k|
  {
    if k == [] {
      assert k + rest == rest;
    } else {
      assert (k + rest)[1..] == k[1..] + rest;
      BareLengthOf(k[1..], rest);
    }
  }

  lemma KeySegmentParses(k: string, rest: string)
    requires rest == [] || !IsBareChar(rest[0])
    ensures KeySegment(KeyRepr(k) + rest) == Ok((k, rest))
    ensures !IsBlank(KeyRepr(k)[0]) && KeyRepr(k)[0] !in {'[', '}', ']'}
  {
    var t := KeyRepr(k) + rest;
    if IsBareKey(k) {
      BareLengthOf(k, rest);
      assert IsBareChar(t[0]);
      assert t[..|k|] == k && t[|k|..] == rest;
    } else {
      BasicStringParses(k, rest);
    }
  }

  /** A key path as a header spells it. */
  function Dotted(path: Path): string {
    if path == [] then []
    else KeyRepr(path[0]) + if |path| == 1 then [] else "." + Dotted(path[1..])
  }

  lemma {:induction false} HeaderExtends(path: Path, k: string)
    ensures HeaderJoin(Dotted(path), k) == Dotted(path + [k])
  {
    if path == [] {
      assert path + [k] == [k];
    } else {
      var key, more := KeyRepr(path[0]), path[1..];
      assert (path + [k])[1..] == more + [k];
      if more == [] {
        assert more + [k] == [k];
        Assoc(key, ".", KeyRepr(k));
      } else {
        HeaderExtends(more, k);
        assert Dotted(more) != [];
        Assoc(Dotted(more), ".", KeyRepr(k));
        Assoc(".", Dotted(more), "." + KeyRepr(k));
        Assoc(key, "." + Dotted(more), "." + KeyRepr(k));
        Assoc(key + ("." + Dotted(more)), ".", KeyRepr(k));
      }
    }
  }

  lemma KeyPathStep(k: string, tail: string, acc: Path)
    requires tail == [] || !IsBareChar(tail[0])
    ensures KeyPath(KeyRepr(k) + tail, acc) ==
      var u := SkipInline(tail);
      if u != [] && u[0] == '.' then KeyPath(u[1..], acc + [k]) else Ok((acc + [k], u))
  {
    var s := KeyRepr(k) + tail;
    KeySegmentParses(k, tail);
    assert s[0] == KeyRepr(k)[0];
    assert SkipInline(s) == s;
  }

  lemma DottedSplits(path: Path, rest: string)
    requires |path| > 1
    ensures Dotted(path) + rest == KeyRepr(path[0]) + ("." + (Dotted(path[1..]) + rest))
  {
    Assoc(KeyRepr(path[0]), "." + Dotted(path[1..]), rest);
    Assoc(".", Dotted(path[1..]), rest);
  }

  /** A key path is read up to the first character that ends a bare key. */
  lemma {:induction false} DottedParses(path: Path, acc: Path, rest: string)
    requires path != []
    requires rest == [] || !IsBareChar(rest[0])
    requires var u := SkipInline(rest); u == [] || u[0] != '.'
    ensures KeyPath(Dotted(path) + rest, acc) == Ok((acc + path, SkipInline(rest)))
    decreases |path|
  {
    if |path| == 1 {
      KeyPathStep(path[0], rest, acc);
      assert path == [path[0]];
      assert Dotted(path) == KeyRepr(path[0]);
    } else {
      var next := Dotted(path[1..]) + rest;
      var tail := "." + next;
      DottedSplits(path, rest);
      assert tail[1..] == next;
      KeyPathStep(path[0], tail, acc);
      assert KeyPath(Dotted(path) + rest, acc) == KeyPath(next, acc + [path[0]]);
      SplitFirst(acc, path);
      DottedParses(path[1..], acc + [path[0]], rest);
    }
  }

  lemma HeaderParses(path: Path, rest: string)
    requires path != []
    ensures KeyPath(Dotted(path) + ("]" + rest), []) == Ok((path, "]" + rest))
  {
    DottedParses(path, [], "]" + rest);
    assert [] + path == path;
  }

  lemma KeyParses(k: string, rest: string)
    ensures KeyPath(KeyRepr(k) + (" = " + rest), []) == Ok(([k], "= " + rest))
  {
    var tail := " = " + rest;
    assert tail[1..] == "= " + rest;
    assert SkipInline(tail) == SkipInline("= " + rest) == "= " + rest;
    KeyPathStep(k, tail, []);
    assert [] + [k] == [k];
  }

  // ---- scalars -------------------------------------------------------------------

  lemma {:induction false} AtomLengthOf(tok: string, rest: string)
    requires forall i :: 0 <= i < |tok| ==> !EndsAtom(tok[i])
    requires Terminated(rest)
    ensures AtomLength(tok + rest) == |tok|
  {
    if tok == [] {
      assert tok + rest == rest;
    } else {
      assert (tok + rest)[1..] == tok[1..] + rest;
      AtomLengthOf(tok[1..], rest);
    }
  }

  lemma {:induction false} NoUnderscores(s: string)
    requires '_' !in s
    ensures WithoutUnderscores(s) == s
  {
    if s != [] { NoUnderscores(s[1..]); }
  }

  /** A token without space or terminators is one atom. */
  lemma AtomParses(ft: FloatText, tok: string, rest: string)
    requires tok != [] && forall c <- tok :: !EndsAtom(c) && !IsWhitespace(c)
    requires Terminated(rest)
    ensures ParseAtom(ft, tok + rest) == Ok((Atom(ft, tok), rest))
  {
    AtomLengthOf(tok, rest);
    assert (tok + rest)[..|tok|] == tok && (tok + rest)[|tok|..] == rest;
    assert Trim(tok) == tok;
  }

  predicate IsPlain(tok: string) {
    && tok != []
    && (tok[0] == '-' || IsDigit(tok[0]))
    && forall i :: 1 <= i < |tok| ==> IsDigit(tok[i]) || tok[i] == '.'
  }

  lemma PlainIsNoKeyword(tok: string)
    requires IsPlain(tok)
    ensures Keyword(tok).None? && RadixInt(tok).None?
  {
    assert |tok| > 1 ==> tok[1] !in {'i', 'n', 'r', 'a', 'x', 'o', 'b'};
  }

  /** A token of digits, points and a sign reads as a number. */
  lemma PlainAtom(ft: FloatText, tok: string)
    requires IsPlain(tok)
    ensures forall c <- tok :: !EndsAtom(c) && !IsWhitespace(c)
    ensures '.' !in tok && ParseI64(tok).Some? ==> Atom(ft, tok) == Int(ParseI64(tok).value)
    ensures '.' !in tok && ParseI64(tok).None? && ParseU64(tok).Some? ==> Atom(ft, tok) == UInt(ParseU64(tok).value)
    ensures '.' in tok && ft.parse(tok).Some? ==> Atom(ft, tok) == Float(ft.parse(tok).value)
  {
    PlainIsNoKeyword(tok);
    NoUnderscores(tok);
    assert Contains(tok, {'.', 'e', 'E'}) <==> '.' in tok;
  }

  /** What the parser makes of an integer: the signed type when it fits. */
  function CanonInt(i: int): Value
    requires I64_MIN <= i <= U64_MAX
  {
    if i <= I64_MAX then Int(i) else UInt(i)
  }

  lemma IntegerAtom(ft: FloatText, i: int)
    requires I64_MIN <= i <= U64_MAX
    ensures IsPlain(IntText(i)) && Atom(ft, IntText(i)) == CanonInt(i)
    ensures forall c <- IntText(i) :: !EndsAtom(c) && !IsWhitespace(c)
  {
    var tok := IntText(i);
    IntTextParses(i);
    if i < 0 {
      assert forall k :: 1 <= k < |tok| ==> tok[k] == Numeral(-i)[k - 1];
    }
    assert IsPlain(tok);
    PlainAtom(ft, tok);
  }

  lemma FloatAtom(ft: FloatText, f: Float)
    requires Inverse(ft)
    ensures Atom(ft, FloatRepr(ft, f)) == Value.Float(f)
    ensures FloatRepr(ft, f) != [] && FloatRepr(ft, f)[0] !in {'\"', '\'', '[', '{'}
    ensures forall c <- FloatRepr(ft, f) :: !EndsAtom(c) && !IsWhitespace(c)
  {
    if f.Finite? {
      var d := ft.display(f.code);
      assert IsPlainDecimal(d);
      var t := FloatRepr(ft, f);
      if '.' in d {
        var k :| 0 <= k < |d| && d[k] == '.';
        assert Contains(d, {'.', 'e', 'E'});
      } else {
        assert !Contains(d, {'.', 'e', 'E'});
        assert t[|d|] == '.';
      }
      PlainAtom(ft, t);
    }
  }
}
