/** Scalars, keys and lines of the YAML codec: what is written on one line is read back from it. */
module YamlLexical {
  import opened Wrappers
  import opened Seqs
  import opened Text
  import opened Decimal
  import opened Values
  import opened YamlEncode
  import opened YamlParse

  // ---- quoting -------------------------------------------------------------------

  lemma {:induction false} UnescapeEscape(s: string)
    ensures Unescape(Escape(s)) == s
  {
    if s != [] {
      UnescapeEscape(s[1..]);
      var e, t := EscapeChar(s[0]), Escape(s[1..]);
      Parts(e, t);
      if |e| == 2 { assert (e + t)[2..] == t; }
      assert s == [s[0]] + s[1..];
    }
  }

  /** Non-empty, on one line, and not surrounded by space. */
  predicate IsTight(t: string) {
    t != [] && !IsWhitespace(t[0]) && !IsWhitespace(t[|t| - 1]) && '\n' !in t
  }

  lemma TrimTight(t: string)
    requires IsTight(t)
    ensures TrimStart(t) == t && TrimEnd(t) == t && Trim(t) == t
  {}

  lemma {:induction false} EscapeHasNoNewline(s: string)
    ensures '\n' !in Escape(s)
  {
    if s != [] { EscapeHasNoNewline(s[1..]); }
  }

  lemma QuotedReads(s: string)
    ensures IsTight(Quoted(s)) && IsWrapped(Quoted(s), '\"') && Unquote(Quoted(s)) == s
  {
    var q := Quoted(s);
    EscapeHasNoNewline(s);
    assert q[|q| - 1] == '\"';
    TrimTight(q);
    assert q[1..|q| - 1] == Escape(s);
    UnescapeEscape(s);
  }

  lemma StringTextReads(ft: FloatText, s: string)
    ensures IsTight(StringText(ft, s)) && Unquote(StringText(ft, s)) == s
  {
    if NeedsQuote(ft, s) {
      QuotedReads(s);
    } else {
      assert Trim(s) == s;
      TrimmedIsTight(s);
      assert '\n' !in s && s[0] != '\"' && s[0] != '\'';
    }
  }

  // ---- scalars ---------------------------------------------------------------------

  /** A float that is not finite is written as null; one whose text is an integer comes back as that integer. */
  function CanonFloat(ft: FloatText, f: Float): Value {
    if !f.Finite? then Null else
      var t := ft.display(f.code);
      if ParseI64(t).Some? then Int(ParseI64(t).value)
      else if ParseU64(t).Some? then UInt(ParseU64(t).value)
      else Float(f)
  }

  /** What a value on its marker's line reads back as: a byte string as text, an integer in the
      signed type when it fits, a float as an integer when its text is one. */
  function CanonInline(ft: FloatText, v: Value): Value
    requires !IsBlockContainer(v)
  {
    match v
    case UInt(u) => if u <= I64_MAX then Int(u) else v
    case Float(f) => CanonFloat(ft, f)
    case Bytes(b) => Str(ByteList(b))
    case _ => v
  }

  /** A token that starts like a number is read as one. */
  lemma NumberReads(ft: FloatText, t: string)
    requires IsTight(t) && (IsDigit(t[0]) || t[0] == '-')
    ensures ParseScalar(ft, t) == PlainScalar(ft, t)
  {
    TrimTight(t);
    NumberIsNoKeyword(t);
  }

  lemma NumberIsNoKeyword(t: string)
    requires t != [] && (IsDigit(t[0]) || t[0] == '-')
    ensures Keyword(t).None? && !IsWrapped(t, '\"') && !IsWrapped(t, '\'')
  {}

  lemma IntegerReads(ft: FloatText, i: int)
    requires I64_MIN <= i <= U64_MAX
    ensures IsTight(IntText(i)) && ':' !in IntText(i)
    ensures ParseScalar(ft, IntText(i)) == if i <= I64_MAX then Int(i) else UInt(i)
  {
    var t := IntText(i);
    assert forall c <- t :: IsDigit(c) || c == '-';
    assert t[0] in t && t[|t| - 1] in t;
    IntTextParses(i);
    NumberReads(ft, t);
  }

  lemma StringReads(ft: FloatText, s: string)
    requires ReadsIntegers(ft)
    ensures ParseScalar(ft, StringText(ft, s)) == Str(s)
  {
    var t := StringText(ft, s);
    StringTextReads(ft, s);
    TrimTight(t);
    if !NeedsQuote(ft, s) {
      assert forall i :: 0 <= i < |s| ==> s[i] !in {':', '#', '\n', '\"', '\''};
      assert Keyword(s).None?;
      assert TightScalar(ft, s) == PlainScalar(ft, s);
    } else {
      QuotedReads(s);
    }
  }

  lemma FloatIsTight(ft: FloatText, f: Float)
    requires Inverse(ft)
    ensures IsTight(FloatRepr(ft, f)) && ':' !in FloatRepr(ft, f)
  {
    var t := FloatRepr(ft, f);
    if f.Finite? {
      assert IsPlainDecimal(t);
      assert forall c <- t :: IsDigit(c) || c == '-' || c == '.';
      assert t[0] in t && t[|t| - 1] in t;
    }
  }

  /** A value on its marker's line is tight and reads back in canonical form. */
  ghost predicate ReadsBack(ft: FloatText, v: Value)
    requires !IsBlockContainer(v)
  {
    IsTight(InlineText(ft, v)) && ParseScalar(ft, InlineText(ft, v)) == CanonInline(ft, v)
  }

  lemma BytesRead(ft: FloatText, b: seq<u8>)
    ensures ReadsBack(ft, Bytes(b))
  {
    var t := Quoted(ByteList(b));
    QuotedReads(ByteList(b));
    TrimTight(t);
    assert TightScalar(ft, t) == Str(Unquote(t));
  }

  lemma NumbersRead(ft: FloatText, v: Value)
    requires Inverse(ft) && (v.Int? || v.UInt? || v.Float?)
    ensures ReadsBack(ft, v)
  {
    match v {
      case Int(i) => IntegerReads(ft, i);
      case UInt(u) => IntegerReads(ft, u);
      case Float(f) => FloatReads(ft, f);
    }
  }

  lemma FloatReads(ft: FloatText, f: Float)
    requires Inverse(ft)
    ensures ReadsBack(ft, Float(f))
  {
    FloatIsTight(ft, f);
    if f.Finite? {
      assert IsPlainDecimal(ft.display(f.code));
      NumberReads(ft, ft.display(f.code));
    } else {
      KeywordReads(ft, Null);
    }
  }

  lemma InlineReads(ft: FloatText, v: Value)
    requires Inverse(ft) && ReadsIntegers(ft) && !IsBlockContainer(v)
    ensures ReadsBack(ft, v)
  {
    if v.Int? || v.UInt? || v.Float? {
      NumbersRead(ft, v);
    } else if v.Bytes? {
      BytesRead(ft, v.bytes);
    } else if v.Str? {
      StringReads(ft, v.s);
      StringTextReads(ft, v.s);
    } else {
      KeywordReads(ft, v);
    }
  }

  lemma WordReads(ft: FloatText, t: string, v: Value)
    requires IsTight(t) && t[0] !in {'\"', '\''} && Keyword(t) == Some(v)
    ensures ParseScalar(ft, t) == v
  {
    TrimTight(t);
  }

  lemma KeywordReads(ft: FloatText, v: Value)
    requires v.Null? || v.Bool? || (v.Array? && v.items == []) || (v.Object? && v.entries == [])
    ensures ReadsBack(ft, v) && ':' !in InlineText(ft, v)
  {
    var t := InlineText(ft, v);
    assert IsTight(t) && t[0] !in {'\"', '\''} && ':' !in t;
    assert Keyword(t) == Some(v);
    WordReads(ft, t, v);
  }

  /** A float whose text has a point comes back as itself. */
  lemma PointedFloatReads(ft: FloatText, n: nat)
    requires Inverse(ft) && '.' in ft.display(n)
    ensures CanonInline(ft, Float(Finite(n))) == Float(Finite(n))
  {
    assert IsPlainDecimal(ft.display(n));
    PointIsNoInteger(ft.display(n));
  }

  lemma PointIsNoInteger(t: string)
    requires '.' in t && t[0] != '.'
    ensures ParseI64(t).None? && ParseU64(t).None?
  {
    PointIsNoDigits(t, 10);
    assert '.' in t[1..];
    PointIsNoDigits(t[1..], 10);
  }

  lemma {:induction false} PointIsNoDigits(t: string, radix: int)
    requires '.' in t && 2 <= radix <= 16
    ensures DigitsValue(t, radix).None?
  {
    if t[|t| - 1] != '.' {
      assert '.' in t[..|t| - 1];
      PointIsNoDigits(t[..|t| - 1], radix);
    }
  }

  // ---- colons ------------------------------------------------------------------------

  /** The first ": " in a string. */
  function ColonSpaceAt(s: string): (r: Option<nat>)
    ensures r.Some? ==> r.value + 1 < |s| && s[r.value] == ':' && s[r.value + 1] == ' '
  {
    if |s| < 2 then None
    else if s[0] == ':' && s[1] == ' ' then Some(0)
    else
      var i :- ColonSpaceAt(s[1..]);
      Some(i + 1)
  }

  predicate HasColonSpace(s: string) {
    exists i :: 0 <= i < |s| - 1 && s[i] == ':' && s[i + 1] == ' '
  }

  lemma {:induction false} ColonSpaceFound(s: string)
    ensures ColonSpaceAt(s).Some? <==> HasColonSpace(s)
  {
    if |s| >= 2 && !(s[0] == ':' && s[1] == ' ') {
      ColonSpaceFound(s[1..]);
      if HasColonSpace(s) {
        var i :| 0 <= i < |s| - 1 && s[i] == ':' && s[i + 1] == ' ';
        assert s[1..][i - 1] == ':' && s[1..][i] == ' ';
      }
    }
  }

  function Shift(n: nat, i: Option<nat>): Option<nat> {
    if i.None? then None else Some(n + i.value)
  }

  lemma {:induction false} SkipColonless(a: string, b: string)
    requires ':' !in a
    ensures ColonAt(a + b) == Shift(|a|, ColonAt(b))
  {
    if a == [] {
      assert a + b == b;
    } else {
      assert (a + b)[1..] == a[1..] + b;
      SkipColonless(a[1..], b);
    }
  }

  /** One character in front of a text that does not end there. */
  lemma ColonStep(c: char, t: string)
    requires t != []
    ensures ColonAt(EscapeChar(c) + t) ==
      if c == ':' && t[0] == ' ' then Some(0) else Shift(|EscapeChar(c)|, ColonAt(t))
  {
    if c == ':' {
      assert ([c] + t)[1..] == t;
    } else {
      SkipColonless(EscapeChar(c), t);
    }
  }

  lemma ColonSpaceStep(s: string)
    requires s != []
    ensures ColonSpaceAt(s) ==
      if s[0] == ':' && |s| > 1 && s[1] == ' ' then Some(0) else Shift(1, ColonSpaceAt(s[1..]))
  {}

  /** The first split point in the quoted form of `s`, counted after the opening quote. */
  function SplitInQuotes(s: string, tail: string): Option<nat> {
    var j := ColonSpaceAt(s);
    if j.Some? then Some(|Escape(s[..j.value])|) else Shift(|Escape(s)| + 1, ColonAt(tail))
  }

  lemma SplitStep(s: string, tail: string)
    requires s != []
    ensures SplitInQuotes(s, tail) ==
      if s[0] == ':' && |s| > 1 && s[1] == ' ' then Some(0)
      else Shift(|EscapeChar(s[0])|, SplitInQuotes(s[1..], tail))
  {
    ColonSpaceStep(s);
    var j := ColonSpaceAt(s[1..]);
    if s[0] == ':' && |s| > 1 && s[1] == ' ' {
      assert Escape(s[..0]) == [];
    } else if j.Some? {
      EscapeOfFirst(s, j.value + 1);
    }
  }

  /** Inside quotes a colon is a split point exactly where the string has ": ". */
  lemma {:induction false} EscapedColon(s: string, tail: string)
    ensures ColonAt(Escape(s) + ("\"" + tail)) == SplitInQuotes(s, tail)
    decreases |s|
  {
    var close := "\"" + tail;
    if s == [] {
      assert Escape(s) + close == close;
      SkipColonless("\"", tail);
    } else {
      var e, t := EscapeChar(s[0]), Escape(s[1..]) + close;
      Assoc(e, Escape(s[1..]), close);
      EscapedColon(s[1..], tail);
      ColonStep(s[0], t);
      NextChar(s[1..], close);
      SplitStep(s, tail);
    }
  }

  lemma NextChar(s: string, close: string)
    requires close != [] && close[0] == '\"'
    ensures (Escape(s) + close)[0] == ' ' <==> s != [] && s[0] == ' '
  {
    if s != [] { assert (Escape(s) + close)[0] == EscapeChar(s[0])[0]; }
  }

  /** How the text before the first ": " grows with the string. */
  lemma EscapeOfFirst(s: string, j: nat)
    requires 0 < j <= |s|
    ensures Escape(s[..j]) == EscapeChar(s[0]) + Escape(s[1..][..j - 1])
  {
    assert s[..j][0] == s[0] && s[..j][1..] == s[1..][..j - 1];
  }

  lemma QuotedSplits(s: string, tail: string)
    ensures Quoted(s) + tail == "\"" + (Escape(s) + ("\"" + tail))
  {
    Assoc("\"" + Escape(s), "\"", tail);
    Assoc("\"", Escape(s), "\"" + tail);
  }

  lemma PlainHasNoColon(ft: FloatText, s: string)
    requires !NeedsQuote(ft, s)
    ensures ':' !in s && !HasColonSpace(s)
  {
    assert forall i :: 0 <= i < |s| ==> s[i] !in {':', '#', '\n', '\"', '\''};
  }

  lemma QuotedColon(s: string, tail: string)
    ensures ColonAt(Quoted(s) + tail) == Shift(1, SplitInQuotes(s, tail))
  {
    EscapedColon(s, tail);
    QuotedSplits(s, tail);
    SkipColonless("\"", Escape(s) + ("\"" + tail));
  }

  lemma SafeQuotedColon(s: string, tail: string)
    requires !HasColonSpace(s)
    ensures ColonAt(Quoted(s) + tail) == Shift(|Quoted(s)|, ColonAt(tail))
  {
    ColonSpaceFound(s);
    QuotedColon(s, tail);
  }

  /** A string without ": ", written on a line, has no split point of its own. */
  lemma SafeTextColon(ft: FloatText, s: string, tail: string)
    requires !HasColonSpace(s)
    ensures ColonAt(StringText(ft, s) + tail) == Shift(|StringText(ft, s)|, ColonAt(tail))
  {
    if NeedsQuote(ft, s) {
      SafeQuotedColon(s, tail);
    } else {
      PlainHasNoColon(ft, s);
      SkipColonless(s, tail);
    }
  }

  /** A string with ": " is split inside its quotes. */
  lemma UnsafeTextColon(s: string, tail: string)
    requires HasColonSpace(s)
    ensures ColonSpaceAt(s).Some?
    ensures ColonAt(Quoted(s) + tail) == Some(1 + |Escape(s[..ColonSpaceAt(s).value])|)
  {
    ColonSpaceFound(s);
    QuotedColon(s, tail);
  }
}
