/** Integer text: the writers of `codec/fmt.rs` and the integer parsers they must agree with. */
module Decimal {
  import opened Wrappers
  import opened Text

  const I64_MIN: int := -0x8000_0000_0000_0000
  const I64_MAX: int := 0x7FFF_FFFF_FFFF_FFFF
  const U64_MAX: int := 0xFFFF_FFFF_FFFF_FFFF

  type i64 = x: int | I64_MIN <= x <= I64_MAX
  type u64 = x: int | 0 <= x <= U64_MAX

  function DigitChar(d: int): (c: char)
    requires 0 <= d < 16
  {
    if d < 10 then ('0' as int + d) as char else ('A' as int + d - 10) as char
  }

  /** `char::to_digit`: letters of either case stand for ten and up. */
  function DigitValue(c: char, radix: int): Option<int>
    requires 2 <= radix <= 16
  {
    var d := if '0' <= c <= '9' then c as int - '0' as int
             else if 'a' <= c <= 'f' then c as int - 'a' as int + 10
             else if 'A' <= c <= 'F' then c as int - 'A' as int + 10
             else 16;
    if d < radix then Some(d) else None
  }

  /** The decimal numeral of `n`, without leading zeros. */
  function Numeral(n: nat): (s: string)
    ensures s != [] && forall i :: 0 <= i < |s| ==> IsDigit(s[i])
    ensures |s| > 1 ==> s[0] != '0'
  {
    if n < 10 then [DigitChar(n)] else Numeral(n / 10) + [DigitChar(n % 10)]
  }

  function IntText(i: int): string {
    if i < 0 then "-" + Numeral(-i) else Numeral(i)
  }

  function Power10(k: nat): nat {
    if k == 0 then 1 else 10 * Power10(k - 1)
  }

  function DigitsValue(s: string, radix: int): (r: Option<nat>)
    requires 2 <= radix <= 16
  {
    if s == [] then Some(0)
    else
      var n :- DigitsValue(s[..|s| - 1], radix);
      var d :- DigitValue(s[|s| - 1], radix);
      Some(n * radix + d)
  }

  /** `from_str_radix` of the integer type with range `lo..=hi`: an optional sign
      (`-` only for signed types), at least one digit, and no overflow. */
  function ParseInt(s: string, radix: int, lo: int, hi: int): (r: Option<int>)
    requires 2 <= radix <= 16
    ensures r.Some? ==> lo <= r.value <= hi
  {
    if s == [] then None
    else
      var negative := s[0] == '-' && lo < 0;
      var digits := if s[0] == '+' || negative then s[1..] else s;
      if digits == [] then None
      else
        var n :- DigitsValue(digits, radix);
        var v: int := if negative then -(n as int) else n;
        if lo <= v <= hi then Some(v) else None
  }

  function ParseI64(s: string): Option<int> { ParseInt(s, 10, I64_MIN, I64_MAX) }

  function ParseU64(s: string): Option<int> { ParseInt(s, 10, 0, U64_MAX) }

  lemma {:induction false} NumeralValue(n: nat)
    ensures DigitsValue(Numeral(n), 10) == Some(n)
  {
    if n >= 10 {
      NumeralValue(n / 10);
      var s := Numeral(n);
      assert s[..|s| - 1] == Numeral(n / 10);
    } else {
      assert Numeral(n)[..0] == [];
    }
  }

  /** Every integer text parses back, and the unsigned parser sees the values past `i64::MAX`. */
  lemma IntTextParses(i: int)
    requires I64_MIN <= i <= U64_MAX
    ensures i <= I64_MAX ==> ParseI64(IntText(i)) == Some(i)
    ensures i > I64_MAX ==> ParseI64(IntText(i)) == None && ParseU64(IntText(i)) == Some(i)
  {
    if i < 0 {
      NumeralValue(-i);
      assert IntText(i)[1..] == Numeral(-i);
    } else {
      NumeralValue(i);
      assert IsDigit(Numeral(i)[0]);
    }
  }

  lemma {:induction false} NumeralLength(n: nat, k: nat)
    requires n < Power10(k) && k > 0
    ensures |Numeral(n)| <= k
  {
    if n >= 10 { NumeralLength(n / 10, k - 1); }
  }

  /** Twenty digits hold any `u64`, so the stack buffer of `write_u64` never underflows. */
  lemma TwentyDigits(u: u64)
    ensures |Numeral(u)| <= 20
  {
    assert Power10(20) == 100_000_000_000_000_000_000 by {
      assert Power10(5) == 100_000;
      assert Power10(10) == 10_000_000_000;
      assert Power10(15) == 1_000_000_000_000_000;
    }
    NumeralLength(u, 20);
  }

  /** `write_u64`: fills a 20-byte buffer from the back and appends the filled part. */
  method WriteU64(out: string, u: u64) returns (r: string)
    ensures r == out + Numeral(u)
  {
    var buf := new char[20](_ => '0');
    var i := buf.Length;
    var n := u;
    TwentyDigits(u);
    assert buf[i..] == [];
    while true
      invariant 0 <= n <= U64_MAX
      invariant |Numeral(n)| <= i <= 20
      invariant Numeral(n) + buf[i..] == Numeral(u)
      decreases n, i
    {
      i := i - 1;
      ghost var tail := buf[i + 1..];
      buf[i] := DigitChar(n % 10);
      assert buf[i..] == [DigitChar(n % 10)] + tail;
      if n / 10 == 0 {
        assert Numeral(n) == [DigitChar(n % 10)];
        break;
      }
      assert Numeral(n) == Numeral(n / 10) + [DigitChar(n % 10)];
      n := n / 10;
    }
    r := out + buf[i..];
  }

  /** `write_i64`: a sign and the unsigned magnitude, which for `i64::MIN` only `u64` can hold. */
  method WriteI64(out: string, i: i64) returns (r: string)
    ensures r == out + IntText(i)
  {
    r := out;
    if i < 0 { r := r + "-"; }
    var magnitude: int := i;
    if i < 0 { magnitude := -magnitude; }
    r := WriteU64(r, magnitude);
  }
}
