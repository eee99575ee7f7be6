/** Blank lines and comments change no TOML document. */
module TomlComments {
  import opened Wrappers
  import opened Seqs
  import opened Text
  import opened Decimal
  import opened Values
  import opened TomlTree
  import opened TomlParse
  import TomlEncode
  import Numerals

  // ---- two texts that differ in blanks and comments -------------------------------------------------------

  /** Two ways in which a text can end: two texts for the beginning of a line that differ only in what is skipped
      between statements, or the end of a line and the lines after it, without and with a comment. */
  datatype Ends = Lines(a: string, b: string) | Tail(note: string, rest: string)

  function One(e: Ends): string {
    match e case Lines(a, _) => a case Tail(_, rest) => "\n" + rest
  }

  function Other(e: Ends): string {
    match e case Lines(_, b) => b case Tail(note, rest) => "#" + note + ("\n" + rest)
  }

  predicate AreEnds(e: Ends) {
    match e case Lines(a, b) => SkipBlank(a) == SkipBlank(b) case Tail(note, _) => '\n' !in note
  }

  predicate Holds(u: string, e: Ends) {
    e.Tail? || (u != [] && u[|u| - 1] == '\n')
  }

  /** The same text before the two ends. */
  predicate Before(s: string, t: string, e: Ends) {
    var n := |s| - |One(e)|;
    n >= 0 && s[n..] == One(e) && t == s[..n] + Other(e) && Holds(s[..n], e)
  }

  predicate Twins(s: string, t: string, e: Ends) {
    s == t || Before(s, t, e)
  }

  /** Twins, as far as what comes next is not skipped. */
  predicate Cousins(s: string, t: string, e: Ends) {
    Twins(s, t, e) || SkipBlank(s) == SkipBlank(t)
  }

  lemma AreBefore(u: string, e: Ends)
    requires Holds(u, e)
    ensures Before(u + One(e), u + Other(e), e)
  {
    Parts(u, One(e));
  }

  lemma BeforeIs(s: string, t: string, e: Ends) returns (u: string)
    requires Before(s, t, e)
    ensures Holds(u, e) && s == u + One(e) && t == u + Other(e) && s != [] && t != []
  {
    u := s[..|s| - |One(e)|];
  }

  lemma {:induction false} SkipOver(s: string, rest: string)
    requires '\n' !in s
    ensures SkipLine(s + ("\n" + rest)) == "\n" + rest
    decreases |s|
  {
    if s == [] {
      assert s + ("\n" + rest) == "\n" + rest;
    } else {
      assert s[0] in s && (s + ("\n" + rest))[1..] == s[1..] + ("\n" + rest);
      SkipOver(s[1..], rest);
    }
  }

  /** A comment at the end of a line is skipped up to that end. */
  lemma TailSkips(e: Ends)
    requires e.Tail? && AreEnds(e)
    ensures SkipLine(Other(e)) == One(e) && SkipBlank(Other(e)) == SkipBlank(One(e))
    ensures Other(e)[0] == '#' && One(e)[0] == '\n'
  {
    SkipOver("#" + e.note, e.rest);
    assert Other(e)[1..] == e.note + ("\n" + e.rest);
    SkipOver(e.note, e.rest);
  }

  lemma Shift(u: string, x: string)
    requires u != []
    ensures (u + x)[0] == u[0] && (u + x)[1..] == u[1..] + x
  {}

  lemma AtOnce(u: string, e: Ends)
    requires Holds(u, e)
    ensures u == [] ==> u + One(e) == One(e) && One(e)[0] == '\n'
  {}

  /** What is left of the text before the ends after its first character. */
  lemma ShiftBefore(u: string, e: Ends)
    requires Holds(u, e) && u != [] && (e.Tail? || |u| > 1)
    ensures Before(u[1..] + One(e), u[1..] + Other(e), e)
  {
    assert |u| > 1 ==> u[1..][|u| - 2] == u[|u| - 1];
    AreBefore(u[1..], e);
  }

  lemma StepBefore(u: string, x: string, y: string, e: Ends)
    requires Holds(u, e) && x == One(e) && y == Other(e) && u + x != [] && (u + x)[0] != '\n'
    ensures u + y != [] && (u + y)[0] == (u + x)[0] && Before((u + x)[1..], (u + y)[1..], e)
  {
    AtOnce(u, e);
    Shift(u, x);
    Shift(u, y);
    ShiftBefore(u, e);
  }

  /** Twins begin alike, but for a line end, and go on as twins. */
  lemma StepOn(s: string, t: string, e: Ends)
    requires Twins(s, t, e) && s != [] && s[0] != '\n'
    ensures t != [] && t[0] == s[0] && Twins(s[1..], t[1..], e)
  {
    if s != t {
      var u := BeforeIs(s, t, e);
      StepBefore(u, One(e), Other(e), e);
    }
  }

  /** At a line end the twin is at a line end, or at the comment. */
  lemma AtEnd(s: string, t: string, e: Ends)
    requires Twins(s, t, e) && (s == [] || s[0] == '\n')
    ensures s == [] ==> t == []
    ensures s != [] ==> t != [] && (t[0] == '\n' || (t[0] == '#' && e.Tail? && s == One(e) && t == Other(e)))
  {
    if s != t {
      var u := BeforeIs(s, t, e);
      if u == [] { assert s == One(e) && t == Other(e); } else { assert t[0] == u[0] == s[0]; }
    }
  }

  // ---- the lexical level --------------------------------------------------------------------------------

  lemma {:induction false} InlineTwins(s: string, t: string, e: Ends)
    requires Twins(s, t, e)
    ensures Twins(SkipInline(s), SkipInline(t), e)
    decreases |s|
  {
    if s != [] && s[0] != '\n' {
      StepOn(s, t, e);
      if IsInlineSpace(s[0]) { InlineTwins(s[1..], t[1..], e); }
    } else {
      AtEnd(s, t, e);
    }
  }

  lemma {:induction false} LineTwins(s: string, t: string, e: Ends)
    requires Twins(s, t, e) && AreEnds(e)
    ensures Twins(SkipLine(s), SkipLine(t), e)
    decreases |s|
  {
    if s != [] && s[0] != '\n' {
      StepOn(s, t, e);
      LineTwins(s[1..], t[1..], e);
    } else {
      AtEnd(s, t, e);
      if s != [] && t[0] == '#' { TailSkips(e); }
    }
  }

  lemma {:induction false} BlankTwins(s: string, t: string, e: Ends)
    requires Twins(s, t, e) && AreEnds(e)
    ensures Twins(SkipBlank(s), SkipBlank(t), e)
    decreases |s|
  {
    if s != [] && s[0] != '\n' {
      StepOn(s, t, e);
      if IsInlineSpace(s[0]) {
        BlankTwins(s[1..], t[1..], e);
      } else if s[0] == '#' {
        LineTwins(s[1..], t[1..], e);
        BlankTwins(SkipLine(s[1..]), SkipLine(t[1..]), e);
      }
    } else if s != [] {
      AtEnd(s, t, e);
      if t[0] == '#' {
        TailSkips(e);
      } else {
        AfterLineEnd(s, t, e);
        if Twins(s[1..], t[1..], e) { BlankTwins(s[1..], t[1..], e); }
      }
    } else {
      AtEnd(s, t, e);
    }
  }

  lemma AfterLineEnd(s: string, t: string, e: Ends)
    requires Twins(s, t, e) && AreEnds(e) && s != [] && s[0] == '\n' && t != [] && t[0] == '\n'
    ensures Cousins(s[1..], t[1..], e)
  {
    if s != t {
      var u := BeforeIs(s, t, e);
      if u == [] {
        TailSkips(e);
      } else {
        Shift(u, One(e));
        Shift(u, Other(e));
        if |u| > 1 || e.Tail? { ShiftBefore(u, e); } else { Bare(u, One(e), Other(e)); }
      }
    }
  }

  lemma Bare(u: string, x: string, y: string)
    requires |u| == 1
    ensures u[1..] + x == x && u[1..] + y == y
  {}

  lemma CousinsSkip(s: string, t: string, e: Ends)
    requires Cousins(s, t, e) && AreEnds(e)
    ensures Twins(SkipBlank(s), SkipBlank(t), e)
  {
    if Twins(s, t, e) { BlankTwins(s, t, e); }
  }

  lemma ExpectTwins(s: string, t: string, e: Ends, c: char)
    requires Twins(s, t, e) && c != '\n' && Expect(s, c).Ok?
    ensures Expect(t, c).Ok? && Twins(Expect(s, c).value, Expect(t, c).value, e)
  {
    InlineTwins(s, t, e);
    StepOn(SkipInline(s), SkipInline(t), e);
  }

  /** What the end of a line looks at, after a comment. */
  function Uncommented(s: string): string {
    if s != [] && s[0] == '#' then SkipLine(s) else s
  }

  lemma UncommentedTwins(s: string, t: string, e: Ends)
    requires Twins(s, t, e) && AreEnds(e)
    ensures Twins(Uncommented(s), Uncommented(t), e)
    ensures var a, b := Uncommented(s), Uncommented(t);
            a == [] || a[0] == '\n' ==> (a == [] && b == []) || (b != [] && a != [] && a[0] == b[0])
  {
    if s != [] && s[0] != '\n' {
      StepOn(s, t, e);
      if s[0] == '#' {
        LineTwins(s, t, e);
        LineStops(s);
        LineStops(t);
        AtEnd(SkipLine(s), SkipLine(t), e);
      }
    } else {
      AtEnd(s, t, e);
      if s != [] && t[0] == '#' { TailSkips(e); }
    }
  }

  lemma {:induction false} LineStops(s: string)
    ensures SkipLine(s) == [] || SkipLine(s)[0] == '\n'
    decreases |s|
  {
    if s != [] && s[0] != '\n' { LineStops(s[1..]); }
  }

  lemma FinishTwins(s: string, t: string, e: Ends)
    requires Twins(s, t, e) && AreEnds(e) && FinishLine(s).Ok?
    ensures FinishLine(t).Ok? && Cousins(FinishLine(s).value, FinishLine(t).value, e)
  {
    InlineTwins(s, t, e);
    UncommentedTwins(SkipInline(s), SkipInline(t), e);
    var a, b := Uncommented(SkipInline(s)), Uncommented(SkipInline(t));
    if a != [] { AfterLineEnd(a, b, e); }
  }

  lemma {:induction false} TakeTwins(s: string, t: string, e: Ends, n: nat)
    requires Twins(s, t, e) && n <= |s| && forall i :: 0 <= i < n ==> s[i] != '\n'
    ensures n <= |t| && t[..n] == s[..n] && Twins(s[n..], t[n..], e)
    decreases n
  {
    if n == 0 {
      assert s[0..] == s && t[0..] == t;
    } else {
      StepOn(s, t, e);
      TakeTwins(s[1..], t[1..], e, n - 1);
      Slices(s, n);
      Slices(t, n);
    }
  }

  lemma Slices(s: string, n: nat)
    requires 0 < n <= |s|
    ensures s[..n] == [s[0]] + s[1..][..n - 1] && s[1..][n - 1..] == s[n..]
  {}

  lemma HexHasNoNewline(s: string, n: nat)
    requires n <= |s| && ParseInt(s[..n], 16, 0, 0xFFFF_FFFF).Some?
    ensures forall i :: 0 <= i < n ==> s[i] != '\n'
  {
    forall i | 0 <= i < n
      ensures s[i] != '\n'
    {
      var d := s[..n];
      if s[i] == '\n' {
        if d[0] == '+' { Numerals.NotADigit(d[1..], 16, i - 1); } else { Numerals.NotADigit(d, 16, i); }
      }
    }
  }

  lemma HexTwins(s: string, t: string, e: Ends, n: nat)
    requires Twins(s, t, e) && ParseHex(s, n).Ok?
    ensures var a, b := ParseHex(s, n), ParseHex(t, n);
            b.Ok? && b.value.0 == a.value.0 && Twins(a.value.1, b.value.1, e)
  {
    HexHasNoNewline(s, n);
    TakeTwins(s, t, e, n);
  }

  lemma EscapeTwins(s: string, t: string, e: Ends)
    requires Twins(s, t, e) && ParseEscape(s).Ok?
    ensures var a, b := ParseEscape(s), ParseEscape(t);
            b.Ok? && b.value.0 == a.value.0 && Twins(a.value.1, b.value.1, e)
  {
    StepOn(s, t, e);
    if s[0] == 'u' {
      HexTwins(s[1..], t[1..], e, 4);
    } else if s[0] == 'U' {
      HexTwins(s[1..], t[1..], e, 8);
    } else {
      ShortEscape(s, t);
    }
  }

  lemma ShortEscape(s: string, t: string)
    requires s != [] && t != [] && s[0] == t[0] && s[0] != 'u' && s[0] != 'U' && ParseEscape(s).Ok?
    ensures ParseEscape(s).value.1 == s[1..] && ParseEscape(t) == Ok((ParseEscape(s).value.0, t[1..]))
  {}

  lemma {:induction false} BasicTwins(s: string, t: string, e: Ends, out: string)
    requires Twins(s, t, e) && BasicBody(s, out).Ok?
    ensures var a, b := BasicBody(s, out), BasicBody(t, out);
            b.Ok? && b.value.0 == a.value.0 && Twins(a.value.1, b.value.1, e)
    decreases |s|
  {
    StepOn(s, t, e);
    if s[0] == '\\' {
      EscapeTwins(s[1..], t[1..], e);
      var c, a, b := ParseEscape(s[1..]).value.0, ParseEscape(s[1..]).value.1, ParseEscape(t[1..]).value.1;
      BasicTwins(a, b, e, out + [c]);
    } else if s[0] != '\"' {
      BasicTwins(s[1..], t[1..], e, out + [s[0]]);
    }
  }

  lemma {:induction false} LiteralTwins(s: string, t: string, e: Ends, out: string)
    requires Twins(s, t, e) && LiteralBody(s, out).Ok?
    ensures var a, b := LiteralBody(s, out), LiteralBody(t, out);
            b.Ok? && b.value.0 == a.value.0 && Twins(a.value.1, b.value.1, e)
    decreases |s|
  {
    StepOn(s, t, e);
    if s[0] != '\'' { LiteralTwins(s[1..], t[1..], e, out + [s[0]]); }
  }

  lemma {:induction false} BareTwins(s: string, t: string, e: Ends)
    requires Twins(s, t, e)
    ensures BareLength(t) == BareLength(s) && forall i :: 0 <= i < BareLength(s) ==> s[i] != '\n'
    decreases |s|
  {
    if s != [] && s[0] != '\n' {
      StepOn(s, t, e);
      BareTwins(s[1..], t[1..], e);
    } else {
      AtEnd(s, t, e);
    }
  }

  lemma {:induction false} AtomTwins(s: string, t: string, e: Ends)
    requires Twins(s, t, e)
    ensures AtomLength(t) == AtomLength(s) && forall i :: 0 <= i < AtomLength(s) ==> s[i] != '\n'
    decreases |s|
  {
    if s != [] && s[0] != '\n' {
      StepOn(s, t, e);
      AtomTwins(s[1..], t[1..], e);
    } else {
      AtEnd(s, t, e);
    }
  }

  lemma SegmentTwins(s: string, t: string, e: Ends)
    requires Twins(s, t, e) && KeySegment(s).Ok?
    ensures var a, b := KeySegment(s), KeySegment(t);
            b.Ok? && b.value.0 == a.value.0 && Twins(a.value.1, b.value.1, e)
  {
    StepOn(s, t, e);
    if s[0] == '\"' {
      BasicTwins(s[1..], t[1..], e, []);
    } else if s[0] == '\'' {
      LiteralTwins(s[1..], t[1..], e, []);
    } else {
      BareTwins(s, t, e);
      TakeTwins(s, t, e, BareLength(s));
    }
  }

  lemma {:induction false} PathTwins(s: string, t: string, e: Ends, path: Path)
    requires Twins(s, t, e) && KeyPath(s, path).Ok?
    ensures var a, b := KeyPath(s, path), KeyPath(t, path);
            b.Ok? && b.value.0 == a.value.0 && Twins(a.value.1, b.value.1, e)
    decreases |s|
  {
    InlineTwins(s, t, e);
    var s1, t1 := SkipInline(s), SkipInline(t);
    SegmentTwins(s1, t1, e);
    var k, s2, t2 := KeySegment(s1).value.0, KeySegment(s1).value.1, KeySegment(t1).value.1;
    InlineTwins(s2, t2, e);
    var s3, t3 := SkipInline(s2), SkipInline(t2);
    SameDot(s3, t3, e, '.');
    if s3 != [] && s3[0] == '.' {
      StepOn(s3, t3, e);
      PathTwins(s3[1..], t3[1..], e, path + [k]);
    }
  }

  /** Twins agree on whether a character comes next that is no line end and begins no comment. */
  lemma SameDot(s: string, t: string, e: Ends, c: char)
    requires Twins(s, t, e) && c != '\n' && c != '#'
    ensures (s != [] && s[0] == c) == (t != [] && t[0] == c)
  {
    if s != [] && s[0] != '\n' { StepOn(s, t, e); } else { AtEnd(s, t, e); }
  }

  lemma ScalarTwins(ft: FloatText, s: string, t: string, e: Ends)
    requires Twins(s, t, e) && ParseAtom(ft, s).Ok?
    ensures var a, b := ParseAtom(ft, s), ParseAtom(ft, t);
            b.Ok? && b.value.0 == a.value.0 && Twins(a.value.1, b.value.1, e)
  {
    AtomTwins(s, t, e);
    TakeTwins(s, t, e, AtomLength(s));
  }

  // ---- values ------------------------------------------------------------------------------------------

  predicate Thrice(s: string, c: char) {
    |s| >= 3 && s[0] == c && s[1] == c && s[2] == c
  }

  lemma SameThrice(s: string, t: string, e: Ends, c: char)
    requires Twins(s, t, e) && c != '\n' && c != '#' && s != [] && s[0] == c
    ensures Thrice(s, c) == Thrice(t, c)
  {
    StepOn(s, t, e);
    SameDot(s[1..], t[1..], e, c);
    if |s| > 1 && s[1] == c {
      StepOn(s[1..], t[1..], e);
      SameDot(s[1..][1..], t[1..][1..], e, c);
    }
  }

  lemma ThriceIs(s: string)
    ensures "\"\"\"" <= s <==> Thrice(s, '\"')
    ensures "\'\'\'" <= s <==> Thrice(s, '\'')
  {}

  ghost predicate SameValue(a: Parsed<Value>, b: Parsed<Value>, e: Ends) {
    a.Ok? ==> b.Ok? && b.value.0 == a.value.0 && Twins(a.value.1, b.value.1, e)
  }

  function Stringed(r: Parsed<string>): Parsed<Value> {
    if r.Err? then Err(r.error) else Ok((Str(r.value.0), r.value.1))
  }

  lemma BasicValue(ft: FloatText, s: string, depth: nat)
    requires s != [] && s[0] == '\"' && depth <= MAX_DEPTH
    ensures ParseValue(ft, s, depth) ==
            if Thrice(s, '\"') then Err(MultiLineString) else Stringed(BasicBody(s[1..], []))
  {
    ThriceIs(s);
  }

  lemma LiteralValue(ft: FloatText, s: string, depth: nat)
    requires s != [] && s[0] == '\'' && depth <= MAX_DEPTH
    ensures ParseValue(ft, s, depth) ==
            if Thrice(s, '\'') then Err(MultiLineString) else Stringed(LiteralBody(s[1..], []))
  {
    ThriceIs(s);
  }

  lemma StringTwins(ft: FloatText, s: string, t: string, e: Ends, depth: nat)
    requires Twins(s, t, e) && s != [] && (s[0] == '\"' || s[0] == '\'') && depth <= MAX_DEPTH
    ensures SameValue(ParseValue(ft, s, depth), ParseValue(ft, t, depth), e)
  {
    StepOn(s, t, e);
    SameThrice(s, t, e, s[0]);
    if s[0] == '\"' {
      BasicValue(ft, s, depth);
      BasicValue(ft, t, depth);
      if BasicBody(s[1..], []).Ok? { BasicTwins(s[1..], t[1..], e, []); }
    } else {
      LiteralValue(ft, s, depth);
      LiteralValue(ft, t, depth);
      if LiteralBody(s[1..], []).Ok? { LiteralTwins(s[1..], t[1..], e, []); }
    }
  }

  /** A value that begins here: space before it does not matter. */
  lemma ValueAfterSpace(ft: FloatText, s: string, depth: nat)
    ensures ParseValue(ft, s, depth) == ParseValue(ft, SkipInline(s), depth)
    ensures SkipInline(SkipInline(s)) == SkipInline(s)
  {
    SkipTwice(s);
  }

  lemma {:induction false} SkipTwice(s: string)
    ensures SkipInline(SkipInline(s)) == SkipInline(s)
    decreases |s|
  {
    if s != [] && IsInlineSpace(s[0]) { SkipTwice(s[1..]); }
  }

  lemma {:induction false} ValueTwins(ft: FloatText, s: string, t: string, e: Ends, depth: nat)
    requires Twins(s, t, e) && AreEnds(e)
    ensures SameValue(ParseValue(ft, s, depth), ParseValue(ft, t, depth), e)
    decreases |s|, 0
  {
    InlineTwins(s, t, e);
    ValueAfterSpace(ft, s, depth);
    ValueAfterSpace(ft, t, depth);
    var a, b := SkipInline(s), SkipInline(t);
    if depth <= MAX_DEPTH && a != [] && a[0] != '\n' {
      StepOn(a, b, e);
      if a[0] == '\"' || a[0] == '\'' {
        StringTwins(ft, a, b, e, depth);
      } else if a[0] == '[' {
        ArrayTwins(ft, a[1..], b[1..], e, depth, []);
      } else if a[0] == '{' {
        TableTwins(ft, a[1..], b[1..], e, depth);
      } else if ParseAtom(ft, a).Ok? {
        ScalarTwins(ft, a, b, e);
      }
    } else if depth <= MAX_DEPTH && a != [] {
      NoValueAtEnd(ft, a);
    }
  }

  lemma NoValueAtEnd(ft: FloatText, s: string)
    requires s != [] && s[0] == '\n'
    ensures ParseAtom(ft, s).Err?
  {
    assert AtomLength(s) == 0 && s[..0] == [] && Trim([]) == [];
  }

  lemma {:induction false} TableTwins(ft: FloatText, s: string, t: string, e: Ends, depth: nat)
    requires Twins(s, t, e) && AreEnds(e)
    ensures var u, v := SkipBlank(s), SkipBlank(t);
            && (u != [] && u[0] == '}') == (v != [] && v[0] == '}')
            && (u != [] && u[0] == '}' ==> Twins(u[1..], v[1..], e))
            && (!(u != [] && u[0] == '}') ==> SameValue(FieldLoop(ft, u, depth, []), FieldLoop(ft, v, depth, []), e))
    decreases |s|, 2
  {
    BlankTwins(s, t, e);
    var u, v := SkipBlank(s), SkipBlank(t);
    SameDot(u, v, e, '}');
    if u != [] && u[0] == '}' { StepOn(u, v, e); } else { FieldsTwins(ft, u, v, e, depth, []); }
  }

  lemma {:induction false} ArrayTwins(ft: FloatText, s: string, t: string, e: Ends, depth: nat, items: seq<Value>)
    requires Twins(s, t, e) && AreEnds(e)
    ensures SameValue(ArrayLoop(ft, s, depth, items), ArrayLoop(ft, t, depth, items), e)
    decreases |s|, 1
  {
    BlankTwins(s, t, e);
    var s1, t1 := SkipBlank(s), SkipBlank(t);
    SameDot(s1, t1, e, ']');
    if s1 != [] && s1[0] == ']' {
      StepOn(s1, t1, e);
    } else if ArrayLoop(ft, s, depth, items).Ok? {
      ValueTwins(ft, s1, t1, e, depth + 1);
      var v, s2, t2 := ParseValue(ft, s1, depth + 1).value.0, ParseValue(ft, s1, depth + 1).value.1,
        ParseValue(ft, t1, depth + 1).value.1;
      BlankTwins(s2, t2, e);
      var s3, t3 := SkipBlank(s2), SkipBlank(t2);
      StepOn(s3, t3, e);
      if s3[0] == ',' { ArrayTwins(ft, s3[1..], t3[1..], e, depth, items + [v]); }
    }
  }

  lemma {:induction false} FieldsTwins(ft: FloatText, s: string, t: string, e: Ends, depth: nat, entries: Table)
    requires Twins(s, t, e) && AreEnds(e)
    ensures SameValue(FieldLoop(ft, s, depth, entries), FieldLoop(ft, t, depth, entries), e)
    decreases |s|, 1
  {
    if FieldLoop(ft, s, depth, entries).Ok? {
      BlankTwins(s, t, e);
      var s1, t1 := SkipBlank(s), SkipBlank(t);
      PathTwins(s1, t1, e, []);
      var path, s2, t2 := KeyPath(s1, []).value.0, KeyPath(s1, []).value.1, KeyPath(t1, []).value.1;
      ExpectTwins(s2, t2, e, '=');
      var s3, t3 := Expect(s2, '=').value, Expect(t2, '=').value;
      InlineTwins(s3, t3, e);
      ValueTwins(ft, SkipInline(s3), SkipInline(t3), e, depth + 1);
      var x, y := ParseValue(ft, SkipInline(s3), depth + 1), ParseValue(ft, SkipInline(t3), depth + 1);
      BlankTwins(x.value.1, y.value.1, e);
      var s4, t4 := SkipBlank(x.value.1), SkipBlank(y.value.1);
      StepOn(s4, t4, e);
      if s4[0] == ',' { FieldsTwins(ft, s4[1..], t4[1..], e, depth, SetNested(entries, path, x.value.0).value); }
    }
  }

  // ---- documents -----------------------------------------------------------------------------------------

  ghost predicate SameState(a: Parsed<State>, b: Parsed<State>, e: Ends) {
    a.Ok? ==> b.Ok? && b.value.0 == a.value.0 && Cousins(a.value.1, b.value.1, e)
  }

  lemma ElementTwins(s: string, t: string, e: Ends, st: State)
    requires Twins(s, t, e) && AreEnds(e)
    ensures SameState(ElementHeader(s, st), ElementHeader(t, st), e)
  {
    if ElementHeader(s, st).Ok? {
      PathTwins(s, t, e, []);
      var s1, t1 := KeyPath(s, []).value.1, KeyPath(t, []).value.1;
      ExpectTwins(s1, t1, e, ']');
      var s2, t2 := Expect(s1, ']').value, Expect(t1, ']').value;
      ExpectTwins(s2, t2, e, ']');
      FinishTwins(Expect(s2, ']').value, Expect(t2, ']').value, e);
    }
  }

  lemma HeaderTwins(s: string, t: string, e: Ends, st: State)
    requires Twins(s, t, e) && AreEnds(e)
    ensures SameState(TableHeader(s, st), TableHeader(t, st), e)
  {
    if TableHeader(s, st).Ok? {
      PathTwins(s, t, e, []);
      var s1, t1 := KeyPath(s, []).value.1, KeyPath(t, []).value.1;
      ExpectTwins(s1, t1, e, ']');
      FinishTwins(Expect(s1, ']').value, Expect(t1, ']').value, e);
    }
  }

  /** The key of an assignment and what follows its equals sign. */
  function AssignedKey(s: string): Parsed<Path> {
    var (path, t) :- KeyPath(s, []);
    var u :- Expect(SkipInline(t), '=');
    Ok((path, SkipInline(u)))
  }

  function Assigned(ft: FloatText, path: Path, s: string, st: State): Parsed<State> {
    var (v, w) :- ParseValue(ft, s, 0);
    var base :- Resolve(st.root, st.current);
    var base' :- SetNested(base, path, v);
    var x :- FinishLine(w);
    Ok((State(Put(st.root, st.current, base'), st.current), x))
  }

  lemma AssignmentIs(ft: FloatText, s: string, st: State)
    ensures Assignment(ft, s, st) ==
            var k := AssignedKey(s); if k.Err? then Err(k.error) else Assigned(ft, k.value.0, k.value.1, st)
  {}

  lemma AssignedKeyTwins(s: string, t: string, e: Ends)
    requires Twins(s, t, e) && AssignedKey(s).Ok?
    ensures var a, b := AssignedKey(s), AssignedKey(t);
            b.Ok? && b.value.0 == a.value.0 && Twins(a.value.1, b.value.1, e)
  {
    PathTwins(s, t, e, []);
    var s1, t1 := KeyPath(s, []).value.1, KeyPath(t, []).value.1;
    InlineTwins(s1, t1, e);
    ExpectTwins(SkipInline(s1), SkipInline(t1), e, '=');
    InlineTwins(Expect(SkipInline(s1), '=').value, Expect(SkipInline(t1), '=').value, e);
  }

  lemma AssignedTwins(ft: FloatText, path: Path, s: string, t: string, e: Ends, st: State)
    requires Twins(s, t, e) && AreEnds(e)
    ensures SameState(Assigned(ft, path, s, st), Assigned(ft, path, t, st), e)
  {
    if Assigned(ft, path, s, st).Ok? {
      ValueTwins(ft, s, t, e, 0);
      FinishTwins(ParseValue(ft, s, 0).value.1, ParseValue(ft, t, 0).value.1, e);
    }
  }

  lemma AssignmentTwins(ft: FloatText, s: string, t: string, e: Ends, st: State)
    requires Twins(s, t, e) && AreEnds(e)
    ensures SameState(Assignment(ft, s, st), Assignment(ft, t, st), e)
  {
    AssignmentIs(ft, s, st);
    AssignmentIs(ft, t, st);
    var a := AssignedKey(s);
    if a.Ok? {
      AssignedKeyTwins(s, t, e);
      AssignedTwins(ft, a.value.0, a.value.1, AssignedKey(t).value.1, e, st);
    }
  }

  lemma StatementTwins(ft: FloatText, s: string, t: string, e: Ends, st: State)
    requires Twins(s, t, e) && AreEnds(e) && s != [] && s[0] != '\n'
    ensures t != [] && SameState(Statement(ft, s, st), Statement(ft, t, st), e)
  {
    StepOn(s, t, e);
    if s[0] == '[' {
      SameDot(s[1..], t[1..], e, '[');
      if |s| > 1 && s[1] == '[' {
        StepOn(s[1..], t[1..], e);
        assert s[1..][1..] == s[2..] && t[1..][1..] == t[2..];
        ElementTwins(s[2..], t[2..], e, st);
      } else {
        HeaderTwins(s[1..], t[1..], e, st);
      }
    } else {
      AssignmentTwins(ft, s, t, e, st);
    }
  }

  lemma {:induction false} BlankIsSkipped(s: string)
    ensures SkipBlank(s) == [] || SkipBlank(s)[0] != '\n'
    decreases |s|
  {
    if s != [] {
      if IsInlineSpace(s[0]) || s[0] == '\n' { BlankIsSkipped(s[1..]); }
      else if s[0] == '#' { BlankIsSkipped(SkipLine(s[1..])); }
    }
  }

  lemma {:induction false} DocumentTwins(ft: FloatText, s: string, t: string, e: Ends, st: State)
    requires Cousins(s, t, e) && AreEnds(e) && Document(ft, s, st).Ok?
    ensures Document(ft, t, st) == Document(ft, s, st)
    decreases |s|
  {
    CousinsSkip(s, t, e);
    var a, b := SkipBlank(s), SkipBlank(t);
    BlankIsSkipped(s);
    if a == [] {
      AtEnd(a, b, e);
    } else {
      StatementTwins(ft, a, b, e, st);
      var x, y := Statement(ft, a, st), Statement(ft, b, st);
      DocumentTwins(ft, x.value.1, y.value.1, e, x.value.0);
    }
  }

  /** Lines. */
  predicate IsLines(a: string) {
    a == [] || a[|a| - 1] == '\n'
  }

  lemma LinesAccepted(ft: FloatText, a: string, x: string, y: string)
    requires IsLines(a) && SkipBlank(x) == SkipBlank(y) && FromStr(ft, a + x).Ok?
    ensures FromStr(ft, a + y) == FromStr(ft, a + x)
  {
    var e := Lines(x, y);
    if a == [] {
      assert a + x == x && a + y == y;
    } else {
      AreBefore(a, e);
    }
    DocumentTwins(ft, a + x, a + y, e, State([], []));
  }

  /** A line of blanks, perhaps with a comment. */
  predicate IsNote(c: string) {
    '\n' !in c && (SkipInline(c) == [] || SkipInline(c)[0] == '#')
  }

  lemma {:induction false} NoteIsSkipped(c: string, b: string)
    requires IsNote(c)
    ensures SkipBlank(c + ("\n" + b)) == SkipBlank(b)
    decreases |c|
  {
    var s := c + ("\n" + b);
    if c == [] {
      assert s == "\n" + b;
    } else {
      assert c[0] in c && s[1..] == c[1..] + ("\n" + b);
      if IsInlineSpace(c[0]) {
        NoteIsSkipped(c[1..], b);
      } else {
        SkipOver(c[1..], b);
      }
    }
  }

  /** A blank line or a comment line, put in anywhere between lines, inside arrays and tables too, changes no document:
      what was accepted means the same, and what was not accepted is not accepted. */
  lemma NotesAreInvisible(ft: FloatText, a: string, c: string, b: string)
    requires IsLines(a) && IsNote(c)
    ensures var plain, noted := FromStr(ft, a + b), FromStr(ft, a + (c + ("\n" + b)));
            plain.Ok? || noted.Ok? ==> noted == plain
  {
    NoteIsSkipped(c, b);
    var x, y := b, c + ("\n" + b);
    if FromStr(ft, a + x).Ok? { LinesAccepted(ft, a, x, y); }
    if FromStr(ft, a + y).Ok? { LinesAccepted(ft, a, y, x); }
  }

  /** In an accepted document a comment can be put at the end of any line. */
  lemma CommentsAreInvisible(ft: FloatText, a: string, note: string, b: string)
    requires '\n' !in note && FromStr(ft, a + ("\n" + b)).Ok?
    ensures FromStr(ft, a + ("#" + note + ("\n" + b))) == FromStr(ft, a + ("\n" + b))
  {
    var e := Tail(note, b);
    AreBefore(a, e);
    DocumentTwins(ft, a + One(e), a + Other(e), e, State([], []));
  }
}
