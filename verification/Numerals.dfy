/** Numerals by their digits: what integer text means in any base. */
module Numerals {
  import opened Wrappers
  import opened Seqs
  import opened Decimal
  import opened Values

  // ---- numerals by their digits -----------------------------------------------------------------------

  const LOWER := "0123456789abcdef"
  const UPPER := "0123456789ABCDEF"

  /** A character stands for a digit, in either case. */
  predicate Spells(c: char, d: nat) {
    d < 16 && (c == LOWER[d] || c == UPPER[d])
  }

  predicate IsSpelled(s: string, ds: seq<nat>, base: nat) {
    |s| == |ds| && forall i :: 0 <= i < |s| ==> ds[i] < base && Spells(s[i], ds[i])
  }

  function Power(base: nat, k: nat): nat {
    if k == 0 then 1 else base * Power(base, k - 1)
  }

  /** The sum of the digits, each times its power of the base. */
  function PlaceValue(ds: seq<nat>, base: nat): nat {
    if ds == [] then 0 else ds[0] * Power(base, |ds| - 1) + PlaceValue(ds[1..], base)
  }

  lemma TimesBase(d: nat, base: nat, p: nat, n: nat, last: nat)
    ensures d * (base * p) + (n * base + last) == (d * p + n) * base + last
  {}

  lemma {:induction false} ByLastDigit(ds: seq<nat>, base: nat)
    requires ds != []
    ensures PlaceValue(ds, base) == PlaceValue(ds[..|ds| - 1], base) * base + ds[|ds| - 1]
    decreases |ds|
  {
    if |ds| == 1 {
      assert ds[1..] == [] && ds[..0] == [] && Power(base, 0) == 1;
    } else {
      var front, rest := ds[..|ds| - 1], ds[1..];
      ByLastDigit(rest, base);
      assert front[1..] == rest[..|rest| - 1] && rest[|rest| - 1] == ds[|ds| - 1] && front[0] == ds[0];
      TimesBase(ds[0], base, Power(base, |ds| - 2), PlaceValue(front[1..], base), ds[|ds| - 1]);
    }
  }

  lemma GlyphValue(c: char, d: nat, base: int)
    requires 2 <= base <= 16 && d < base && Spells(c, d)
    ensures DigitValue(c, base) == Some(d)
  {
    if d < 10 {
      assert c as int == '0' as int + d;
    } else {
      assert c as int == 'a' as int + (d - 10) || c as int == 'A' as int + (d - 10);
    }
  }

  lemma {:induction false} DigitsMean(s: string, ds: seq<nat>, base: int)
    requires 2 <= base <= 16 && IsSpelled(s, ds, base)
    ensures DigitsValue(s, base) == Some(PlaceValue(ds, base))
    decreases |s|
  {
    if s != [] {
      var n := |s| - 1;
      DigitsMean(s[..n], ds[..n], base);
      GlyphValue(s[n], ds[n], base);
      ByLastDigit(ds, base);
    }
  }

  // ---- signs ----------------------------------------------------------------------------

  datatype Sign = Unsigned | Plus | Minus

  function SignText(sign: Sign): string {
    match sign case Unsigned => "" case Plus => "+" case Minus => "-"
  }

  function Signed(sign: Sign, n: nat): int {
    if sign == Minus then -(n as int) else n
  }

  /** What a number is read as: the signed type if it fits, the unsigned type if it fits and has no minus. */
  function NumberValue(sign: Sign, n: nat): Option<Value> {
    var v := Signed(sign, n);
    if I64_MIN <= v <= I64_MAX then Some(Int(v))
    else if sign != Minus && n <= U64_MAX then Some(UInt(n))
    else None
  }

  lemma GlyphIsNoSign(c: char, d: nat)
    requires Spells(c, d)
    ensures c != '+' && c != '-'
  {}

  lemma SignedParses(sign: Sign, s: string, ds: seq<nat>, base: int, lo: int, hi: int)
    requires 2 <= base <= 16 && s != [] && IsSpelled(s, ds, base) && (sign == Minus ==> lo < 0)
    ensures var v := Signed(sign, PlaceValue(ds, base));
            ParseInt(SignText(sign) + s, base, lo, hi) == if lo <= v <= hi then Some(v) else None
  {
    GlyphIsNoSign(s[0], ds[0]);
    DigitsMean(s, ds, base);
    Parts(SignText(sign), s);
    if sign == Unsigned { assert "" + s == s; }
  }

  /** The unsigned parser knows no minus. */
  lemma {:induction false} NotADigit(s: string, base: int, i: nat)
    requires 2 <= base <= 16 && i < |s| && DigitValue(s[i], base).None?
    ensures DigitsValue(s, base) == None
    decreases |s|
  {
    if i < |s| - 1 { NotADigit(s[..|s| - 1], base, i); }
  }

  lemma MinusIsNoU64(s: string, base: int)
    requires 2 <= base <= 16
    ensures ParseInt("-" + s, base, 0, U64_MAX) == None
  {
    NotADigit("-" + s, base, 0);
  }

  lemma BothParsers(sign: Sign, s: string, ds: seq<nat>, base: int, t: string)
    requires 2 <= base <= 16 && s != [] && IsSpelled(s, ds, base) && t == SignText(sign) + s
    ensures var i := ParseInt(t, base, I64_MIN, I64_MAX); var u := ParseInt(t, base, 0, U64_MAX);
            NumberValue(sign, PlaceValue(ds, base)) ==
            if i.Some? then Some(Int(i.value)) else if u.Some? then Some(UInt(u.value)) else None
  {
    SignedParses(sign, s, ds, base, I64_MIN, I64_MAX);
    if sign == Minus {
      MinusIsNoU64(s, base);
    } else {
      SignedParses(sign, s, ds, base, 0, U64_MAX);
    }
  }

  // ---- nothing else is a number -------------------------------------------------------------------------

  ghost predicate IsGlyph(c: char, base: nat) {
    exists d: nat :: d < base && Spells(c, d)
  }

  lemma OnlyGlyphs(c: char, base: int)
    requires 2 <= base <= 16
    ensures DigitValue(c, base).Some? <==> IsGlyph(c, base)
  {
    var v := DigitValue(c, base);
    if v.Some? {
      assert Spells(c, v.value);
    }
    if d: nat :| d < base && Spells(c, d) {
      GlyphValue(c, d, base);
    }
  }

  lemma {:induction false} SpelledOut(s: string, base: int) returns (ds: seq<nat>)
    requires 2 <= base <= 16 && DigitsValue(s, base).Some?
    ensures IsSpelled(s, ds, base)
    decreases |s|
  {
    if s == [] {
      ds := [];
    } else {
      var n := |s| - 1;
      var front := SpelledOut(s[..n], base);
      OnlyGlyphs(s[n], base);
      var d: nat :| d < base && Spells(s[n], d);
      ds := front + [d];
    }
  }

  /** Whatever is read as an integer is an optional sign and digits of the base, at least one. */
  lemma ReadIsNumeral(t: string, base: int, lo: int, hi: int) returns (sign: Sign, s: string, ds: seq<nat>)
    requires 2 <= base <= 16 && ParseInt(t, base, lo, hi).Some?
    ensures t == SignText(sign) + s && s != [] && IsSpelled(s, ds, base) && (sign == Minus ==> lo < 0)
  {
    sign := if t[0] == '+' then Plus else if t[0] == '-' && lo < 0 then Minus else Unsigned;
    s := if sign == Unsigned then t else t[1..];
    ds := SpelledOut(s, base);
    HeadTail(t);
    if sign == Unsigned { assert "" + t == t; }
  }
}
