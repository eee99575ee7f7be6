/** The parts of Rust's `str` that the codecs rely on. A `str` is a sequence of Unicode scalars. */
module Text {

  /** `char::is_whitespace`: the Unicode White_Space property. */
  predicate IsWhitespace(c: char) {
    var n := c as int;
    || 0x09 <= n <= 0x0D
    || n == 0x20 || n == 0x85 || n == 0xA0 || n == 0x1680
    || 0x2000 <= n <= 0x200A
    || n == 0x2028 || n == 0x2029 || n == 0x202F || n == 0x205F || n == 0x3000
  }

  function TrimStart(s: string): string {
    if s != [] && IsWhitespace(s[0]) then TrimStart(s[1..]) else s
  }

  function TrimEnd(s: string): string {
    if s != [] && IsWhitespace(s[|s| - 1]) then TrimEnd(s[..|s| - 1]) else s
  }

  lemma {:induction false} TrimStartIs(s: string)
    ensures var t := TrimStart(s); |t| <= |s| && t == s[|s| - |t|..] && (t != [] ==> !IsWhitespace(t[0]))
  {
    if s != [] && IsWhitespace(s[0]) { TrimStartIs(s[1..]); }
  }

  lemma {:induction false} TrimEndIs(s: string)
    ensures var t := TrimEnd(s); t <= s && (t != [] ==> !IsWhitespace(t[|t| - 1]))
  {
    if s != [] && IsWhitespace(s[|s| - 1]) { TrimEndIs(s[..|s| - 1]); }
  }

  function Trim(s: string): string {
    TrimEnd(TrimStart(s))
  }

  /** A text that trimming leaves alone has no blank at either end. */
  lemma TrimmedIsTight(s: string)
    requires |Trim(s)| == |s| && s != []
    ensures TrimStart(s) == s && !IsWhitespace(s[0]) && !IsWhitespace(s[|s| - 1])
  {
    TrimStartIs(s);
    TrimEndIs(TrimStart(s));
  }

  predicate Contains(s: string, cs: set<char>) {
    exists i :: 0 <= i < |s| && s[i] in cs
  }

  predicate IsDigit(c: char) { '0' <= c <= '9' }

  predicate IsAlphanumeric(c: char) {
    '0' <= c <= '9' || 'A' <= c <= 'Z' || 'a' <= c <= 'z'
  }
}
