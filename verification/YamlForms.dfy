/** The forms of YAML that the encoder never writes: comments, other quotes and numbers, one-key items, and
    indentation of any width. */
module YamlForms {
  import opened Wrappers
  import opened Seqs
  import opened Text
  import opened Decimal
  import opened Values
  import opened Numerals
  import opened YamlEncode
  import opened YamlParse
  import opened YamlLexical
  import YamlRoundTrip

  // ---- lines that say nothing ---------------------------------------------------------------------------

  predicate IsLines(a: string) {
    a == [] || a[|a| - 1] == '\n'
  }

  /** A blank line, a comment, or the document separator. */
  predicate IsNote(c: string) {
    '\n' !in c && (TrimStart(c) == [] || TrimStart(c)[0] == '#' || TrimStart(c) == "---")
  }

  lemma {:induction false} NewlineInside(a: string, x: string)
    requires a != [] && a[|a| - 1] == '\n'
    ensures NewlineAt(a) < |a| && NewlineAt(a + x) == NewlineAt(a)
    decreases |a|
  {
    assert (a + x)[0] == a[0];
    if a[0] != '\n' {
      assert (a + x)[1..] == a[1..] + x;
      NewlineInside(a[1..], x);
    }
  }

  /** A line without a carriage return at its end. */
  function Stripped(c: string): string {
    if c != [] && c[|c| - 1] == '\r' then c[..|c| - 1] else c
  }

  lemma FirstRawLine(s: string, n: nat)
    requires s != [] && n == NewlineAt(s) < |s|
    ensures RawLines(s) == [Stripped(s[..n])] + RawLines(s[n + 1..])
  {
    StrippedIs(s, n);
  }

  lemma StrippedIs(s: string, n: nat)
    requires n <= |s|
    ensures Stripped(s[..n]) == if n > 0 && s[n - 1] == '\r' then s[..n - 1] else s[..n]
  {
    if n > 0 { assert s[..n][..n - 1] == s[..n - 1]; }
  }

  lemma CutBoth(a: string, x: string, n: nat)
    requires n < |a|
    ensures (a + x)[..n] == a[..n] && (a + x)[n + 1..] == a[n + 1..] + x
  {}

  /** Lines before and after are read on their own. */
  lemma {:induction false} RawLinesConcat(a: string, x: string)
    requires IsLines(a)
    ensures RawLines(a + x) == RawLines(a) + RawLines(x)
    decreases |a|
  {
    if a == [] {
      assert a + x == x;
    } else {
      NewlineInside(a, x);
      var n := NewlineAt(a);
      var rest := a[n + 1..];
      CutBoth(a, x, n);
      FirstRawLine(a, n);
      FirstRawLine(a + x, n);
      assert rest != [] ==> rest[|rest| - 1] == a[|a| - 1];
      RawLinesConcat(rest, x);
      Assoc([Stripped(a[..n])], RawLines(rest), RawLines(x));
    }
  }

  lemma {:induction false} SignificantConcat(a: seq<string>, b: seq<string>)
    ensures SignificantLines(a + b) == SignificantLines(a) + SignificantLines(b)
    decreases |a|
  {
    if a == [] {
      assert a + b == b;
    } else {
      assert (a + b)[0] == a[0] && (a + b)[1..] == a[1..] + b;
      SignificantConcat(a[1..], b);
    }
  }

  lemma PreprocessConcat(a: string, x: string)
    requires IsLines(a)
    ensures Preprocess(a + x) == Preprocess(a) + Preprocess(x)
  {
    RawLinesConcat(a, x);
    SignificantConcat(RawLines(a), RawLines(x));
  }

  lemma {:induction false} NewlineAfter(c: string)
    requires '\n' !in c
    ensures NewlineAt(c + "\n") == |c|
    decreases |c|
  {
    if c != [] {
      assert c[0] in c && (c + "\n")[1..] == c[1..] + "\n";
      NewlineAfter(c[1..]);
    }
  }

  /** A carriage return at its end makes no note significant. */
  lemma {:induction false} NoteWithoutReturn(c: string)
    requires IsNote(c) && c != [] && c[|c| - 1] == '\r'
    ensures Significant(c[..|c| - 1]) == None
    decreases |c|
  {
    var d := c[..|c| - 1];
    assert IsWhitespace('\r');
    if IsWhitespace(c[0]) {
      if |c| > 1 {
        var rest := c[1..];
        assert rest[|rest| - 1] == c[|c| - 1] && forall x <- rest :: x in c;
        assert rest[..|rest| - 1] == d[1..];
        NoteWithoutReturn(rest);
        assert TrimStart(d) == TrimStart(d[1..]);
      } else {
        assert d == [];
      }
    } else {
      assert TrimStart(c) == c;
      assert "---"[2] == '-';
      assert d[0] == c[0] == '#';
    }
  }

  function Alone(l: Option<Line>): seq<Line> {
    if l.None? then [] else [l.value]
  }

  lemma LineAlone(c: string)
    requires '\n' !in c
    ensures Preprocess(c + "\n") == Alone(Significant(Stripped(c)))
  {
    var s, n := c + "\n", |c|;
    NewlineAfter(c);
    FirstRawLine(s, n);
    assert s[..n] == c && s[n + 1..] == [];
    assert RawLines(s) == [Stripped(c)] && [Stripped(c)][1..] == [] && SignificantLines([]) == [];
  }

  lemma NoteIsNothing(c: string)
    requires IsNote(c)
    ensures Preprocess(c + "\n") == []
  {
    LineAlone(c);
    if c != [] && c[|c| - 1] == '\r' { NoteWithoutReturn(c); }
  }

  lemma NotesLeaveNoLine(a: string, c: string, b: string)
    requires IsLines(a) && IsNote(c)
    ensures Preprocess(a + (c + "\n" + b)) == Preprocess(a + b)
  {
    NoteIsNothing(c);
    PreprocessConcat(c + "\n", b);
    PreprocessConcat(a, c + "\n" + b);
    PreprocessConcat(a, b);
    assert [] + Preprocess(b) == Preprocess(b);
  }

  lemma LinesDecide(ft: FloatText, a: string, b: string)
    requires Preprocess(a) == Preprocess(b)
    ensures FromStr(ft, a) == FromStr(ft, b)
  {}

  /** A blank line, a comment or a separator, put in anywhere between lines, changes no document. */
  lemma NotesAreInvisible(ft: FloatText, a: string, c: string, b: string)
    requires IsLines(a) && IsNote(c)
    ensures FromStr(ft, a + (c + "\n" + b)) == FromStr(ft, a + b)
  {
    NotesLeaveNoLine(a, c, b);
    LinesDecide(ft, a + (c + "\n" + b), a + b);
  }

  // ---- scalars ------------------------------------------------------------------------------------------

  lemma TrimSolid(t: string)
    requires t != [] && !IsWhitespace(t[0]) && !IsWhitespace(t[|t| - 1])
    ensures Trim(t) == t
  {
    assert TrimStart(t) == t;
  }

  lemma Wrapped(q: char, s: string)
    requires !IsWhitespace(q)
    ensures var t := [q] + s + [q];
            Trim(t) == t && t[0] == q && t[|t| - 1] == q && t[1..|t| - 1] == s && |t| == |s| + 2
  {
    TrimSolid([q] + s + [q]);
  }

  /** Single quotes: the text between them, as it is. */
  lemma SingleQuoted(ft: FloatText, s: string)
    ensures ParseScalar(ft, "\'" + s + "\'") == Str(s)
  {
    Wrapped('\'', s);
    var t := "\'" + s + "\'";
    assert ['\''] + s + ['\''] == t;
  }

  /** Double quotes: the text between them with its escapes resolved. */
  lemma DoubleQuoted(ft: FloatText, s: string)
    ensures ParseScalar(ft, "\"" + s + "\"") == Str(Unescape(s))
  {
    Wrapped('\"', s);
    var t := "\"" + s + "\"";
    assert ['\"'] + s + ['\"'] == t;
  }

  /** Text without backslashes stands for itself, a backslash and `n` or `t` for the line feed or the tab, a
      backslash and any other character for that character, and one at the end for nothing. */
  lemma {:induction false} UnescapeMeans(a: string, c: char, b: string)
    requires '\\' !in a
    ensures Unescape(a) == a && Unescape(a + "\\") == a
    ensures Unescape(a + ("\\" + [c] + b)) ==
            a + [if c == 'n' then '\n' else if c == 't' then '\t' else c] + Unescape(b)
    decreases |a|
  {
    if a == [] {
      assert a + "\\" == "\\" && a + ("\\" + [c] + b) == "\\" + [c] + b;
      assert ("\\" + [c] + b)[2..] == b;
      assert a + [UnescapeChar(c)] == [UnescapeChar(c)];
    } else {
      var x := a[1..];
      HeadTail(a);
      assert a[0] in a && forall y <- x :: y in a;
      assert (a + "\\")[1..] == x + "\\" && (a + ("\\" + [c] + b))[1..] == x + ("\\" + [c] + b);
      UnescapeMeans(x, c, b);
      Assoc([a[0]], x, [UnescapeChar(c)]);
      Assoc([a[0]], x + [UnescapeChar(c)], Unescape(b));
    }
  }

  /** The words for nothing. */
  lemma NothingWords(ft: FloatText)
    ensures ParseScalar(ft, "~") == ParseScalar(ft, "null") == ParseScalar(ft, "") == Null
  {
    TrimTight("~");
    TrimTight("null");
  }

  /** Signed decimal numbers with any leading zeros; past the range they are floats, or text. */
  lemma NumbersRead(ft: FloatText, sign: Sign, s: string, ds: seq<nat>)
    requires s != [] && IsSpelled(s, ds, 10)
    ensures var n := NumberValue(sign, PlaceValue(ds, 10)); var t := SignText(sign) + s;
            ParseScalar(ft, t) ==
            if n.Some? then n.value else if ft.parse(t).Some? then Value.Float(ft.parse(t).value) else Str(t)
  {
    var t := SignText(sign) + s;
    BothParsers(sign, s, ds, 10, t);
    NumeralChars(sign, s, ds, t);
    NumeralIsNoWord(t);
  }

  lemma NumeralChars(sign: Sign, s: string, ds: seq<nat>, t: string)
    requires IsSpelled(s, ds, 10) && t == SignText(sign) + s
    ensures forall i :: 0 <= i < |t| ==> IsDigit(t[i]) || t[i] in {'+', '-'}
  {
    var k := |SignText(sign)|;
    forall i | k <= i < |t|
      ensures IsDigit(t[i])
    {
      assert Spells(s[i - k], ds[i - k]);
    }
  }

  lemma NumeralIsNoWord(t: string)
    requires t != [] && forall i :: 0 <= i < |t| ==> IsDigit(t[i]) || t[i] in {'+', '-'}
    ensures Trim(t) == t && !IsWrapped(t, '\"') && !IsWrapped(t, '\'') && Keyword(t).None?
  {
    TrimSolid(t);
  }

  // ---- one-key items -------------------------------------------------------------------------------------

  lemma {:induction false} FirstColon(k: string, v: string)
    requires ':' !in k
    ensures ColonAt(k + (": " + v)) == Some(|k|)
    decreases |k|
  {
    var s := k + (": " + v);
    if k == [] {
      assert s == ": " + v;
    } else {
      assert k[0] in k && s[1..] == k[1..] + (": " + v);
      FirstColon(k[1..], v);
    }
  }

  /** `- key: value` is a mapping of that one key to the scalar. */
  lemma OneKeyItem(ft: FloatText, k: string, v: string)
    requires ':' !in k
    ensures ItemValue(ft, k + (": " + v)) == Object([Entry(Unquote(k), ParseScalar(ft, v))])
    ensures MappingKey(k + (": " + v)) == Some((Unquote(k), Trim(v)))
  {
    var s := k + (": " + v);
    FirstColon(k, v);
    assert s[..|k|] == k && s[|k| + 1..] == " " + v;
    TrimTwice(k);
    TrimSpaced(v);
    TrimTwice(v);
  }

  lemma TrimTwice(s: string)
    ensures Trim(Trim(s)) == Trim(s)
  {
    var t := Trim(s);
    TrimStartIs(s);
    TrimEndIs(TrimStart(s));
    if t != [] {
      assert t[0] == TrimStart(s)[0];
      TrimSolid(t);
    }
  }

  lemma TrimSpaced(v: string)
    ensures Trim(" " + v) == Trim(v)
  {
    assert (" " + v)[1..] == v && IsWhitespace(' ');
  }

  lemma LineRead(content: string)
    requires '\n' !in content && content != [] && !IsWhitespace(content[0]) && !IsWhitespace(content[|content| - 1])
    requires content[0] != '#' && content != "---"
    ensures Preprocess(content + "\n") == [Line(0, content)]
  {
    LineAlone(content);
    assert IsWhitespace('\r');
    assert TrimStart(content) == content && TrimEnd(content) == content && content[..0] == [] && ByteLength([]) == 0;
    assert IsSeparator(content) ==> content == "---";
  }

  lemma AfterDash(after: string)
    requires after != [] && !IsWhitespace(after[0])
    ensures TrimStart(("- " + after)[1..]) == after
  {
    var c := "- " + after;
    assert c[1..] == " " + after && (" " + after)[1..] == after && IsWhitespace(' ');
    assert TrimStart(" " + after) == TrimStart(after) == after;
  }

  /** A key and a value, on a line of their own. */
  predicate IsEntryText(k: string, v: string) {
    && ':' !in k && '\n' !in k && k != [] && !IsWhitespace(k[0])
    && '\n' !in v && v != [] && !IsWhitespace(v[|v| - 1])
  }

  lemma EntryLine(k: string, v: string, s: string)
    requires IsEntryText(k, v) && s == k + (": " + v)
    ensures '\n' !in s && s != [] && s[0] == k[0] && s[|s| - 1] == v[|v| - 1] && |s| >= 4 && ':' in s
  {
    assert s[|k|] == ':';
  }

  /** The whole document `- key: value`. */
  lemma OneKeyDocument(ft: FloatText, k: string, v: string)
    requires IsEntryText(k, v)
    ensures FromStr(ft, "- " + (k + (": " + v)) + "\n") ==
            Ok(Array([Object([Entry(Unquote(k), ParseScalar(ft, v))])]))
  {
    var after := k + (": " + v);
    EntryLine(k, v, after);
    var content := "- " + after;
    assert content[|content| - 1] == after[|after| - 1] && content[1] == ' ' && content[0] == '-';
    LineRead(content);
    AfterDash(after);
    OneKeyItem(ft, k, v);
    OneItem(ft, Line(0, content), after);
  }

  /** The whole document `key: value`. */
  lemma OneEntryDocument(ft: FloatText, k: string, v: string)
    requires IsEntryText(k, v) && k[0] != '-' && k[0] != '#' && Trim(v) != []
    ensures FromStr(ft, k + (": " + v) + "\n") == Ok(Object([Entry(Unquote(k), ParseScalar(ft, v))]))
  {
    var content := k + (": " + v);
    EntryLine(k, v, content);
    LineRead(content);
    OneKeyItem(ft, k, v);
    TrimTwice(v);
    OneEntry(ft, Line(0, content), Unquote(k), Trim(v));
  }

  lemma OneEntry(ft: FloatText, l: Line, key: string, rest: string)
    requires !IsItem(l) && l.indent == 0 && MappingKey(l.content) == Some((key, rest)) && rest != []
    ensures ParseBlock(ft, [l], 0, 0) == Ok((Object([Entry(key, ParseScalar(ft, rest))]), []))
  {
    var e := Entry(key, ParseScalar(ft, rest));
    YamlRoundTrip.KeyLineStep(ft, [l], 0, key, rest, 0, []);
    assert [l][1..] == [] && [] + [e] == [e];
    assert MappingLoop(ft, [], 0, 0, [e]) == Ok((Object([e]), []));
  }

  lemma OneItem(ft: FloatText, l: Line, after: string)
    requires IsItem(l) && l.indent == 0 && after == TrimStart(l.content[1..]) && after != []
    ensures ParseBlock(ft, [l], 0, 0) == Ok((Array([ItemValue(ft, after)]), []))
  {
    var item := ItemValue(ft, after);
    YamlRoundTrip.ItemStep(ft, [l], 0, 0, []);
    assert [l][1..] == [] && [] + [item] == [item];
    assert SequenceLoop(ft, [], 0, 0, [item]) == Ok((Array([item]), []));
  }

  // ---- markers with nothing after them -----------------------------------------------------------------------

  lemma {:induction false} LastColon(k: string)
    requires ':' !in k
    ensures ColonAt(k + ":") == Some(|k|)
    decreases |k|
  {
    var s := k + ":";
    if k == [] {
      assert s == ":";
    } else {
      assert k[0] in k && s[1..] == k[1..] + ":";
      LastColon(k[1..]);
    }
  }

  lemma BareKey(k: string)
    requires ':' !in k
    ensures MappingKey(k + ":") == Some((Unquote(k), ""))
  {
    LastColon(k);
    var s := k + ":";
    assert s[..|k|] == k && s[|k| + 1..] == [] && Trim([]) == [];
    TrimTwice(k);
  }

  predicate IsKeyText(k: string) {
    ':' !in k && '\n' !in k && k != [] && !IsWhitespace(k[0]) && k[0] != '-' && k[0] != '#'
  }

  lemma TwoLines(ft: FloatText, a: Line, b: Line, key: string, other: string, rest: string)
    requires !IsItem(a) && !IsItem(b) && a.indent == b.indent == 0 && rest != []
    requires MappingKey(a.content) == Some((key, "")) && MappingKey(b.content) == Some((other, rest))
    ensures ParseBlock(ft, [a, b], 0, 0) == Ok((Object([Entry(key, Null), Entry(other, ParseScalar(ft, rest))]), []))
  {
    var x, y := Entry(key, Null), Entry(other, ParseScalar(ft, rest));
    assert [a, b][1..] == [b] && [b][1..] == [];
    YamlRoundTrip.KeyLineStep(ft, [a, b], 0, key, "", 0, []);
    assert ParseEntryValue(ft, "", [b], 0, 0) == Ok((Null, [b]));
    YamlRoundTrip.KeyLineStep(ft, [b], 0, other, rest, 0, [] + [x]);
    assert [] + [x] + [y] == [x, y];
    assert MappingLoop(ft, [], 0, 0, [x, y]) == Ok((Object([x, y]), []));
  }

  /** A key with nothing after it and nothing deeper below it is null. */
  lemma BareKeyDocument(ft: FloatText, k: string, j: string, v: string)
    requires IsKeyText(k) && IsEntryText(j, v) && j[0] != '-' && j[0] != '#' && Trim(v) != []
    ensures FromStr(ft, k + ":" + "\n" + (j + (": " + v) + "\n")) ==
            Ok(Object([Entry(Unquote(k), Null), Entry(Unquote(j), ParseScalar(ft, v))]))
  {
    var first, second := k + ":", j + (": " + v);
    assert first[0] == k[0] && first[|first| - 1] == ':' && !IsWhitespace(':');
    LineRead(first);
    EntryLine(j, v, second);
    LineRead(second);
    PreprocessConcat(first + "\n", second + "\n");
    assert [Line(0, first)] + [Line(0, second)] == [Line(0, first), Line(0, second)];
    BareKey(k);
    OneKeyItem(ft, j, v);
    TrimTwice(v);
    TwoLines(ft, Line(0, first), Line(0, second), Unquote(k), Unquote(j), Trim(v));
  }

  /** A dash with nothing after it and nothing deeper below it is a null item. */
  lemma BareDashes(ft: FloatText, indent: nat, n: nat)
    ensures ParseItemValue(ft, "", [Line(indent, "-")], indent, n) == Ok((Null, [Line(indent, "-")]))
    ensures ParseItemValue(ft, "", [], indent, n) == Ok((Null, []))
  {}

  // ---- indentation ---------------------------------------------------------------------------------------

  ghost predicate IsIncreasing(f: nat -> nat) {
    forall a: nat, b: nat :: a < b ==> f(a) < f(b)
  }

  /** The same lines, indented by other widths in the same order. */
  function Reindented(ls: seq<Line>, f: nat -> nat): seq<Line> {
    if ls == [] then [] else [Line(f(ls[0].indent), ls[0].content)] + Reindented(ls[1..], f)
  }

  function Moved<T>(r: Parsed<T>, f: nat -> nat): Parsed<T> {
    if r.Err? then Err(r.error) else Ok((r.value.0, Reindented(r.value.1, f)))
  }

  lemma FirstReindented(ls: seq<Line>, f: nat -> nat)
    requires ls != []
    ensures var rs := Reindented(ls, f);
            rs != [] && rs[0] == Line(f(ls[0].indent), ls[0].content) && rs[1..] == Reindented(ls[1..], f)
  {}

  lemma SameOrder(f: nat -> nat, a: nat, b: nat)
    requires IsIncreasing(f)
    ensures (f(a) < f(b) <==> a < b) && (f(a) > f(b) <==> a > b)
  {
    if b < a { assert f(b) < f(a); }
  }

  lemma {:induction false} BlockReindents(ft: FloatText, ls: seq<Line>, indent: nat, depth: nat, f: nat -> nat)
    requires IsIncreasing(f) && ls != []
    ensures Reindented(ls, f) != []
    ensures ParseBlock(ft, Reindented(ls, f), f(indent), depth) == Moved(ParseBlock(ft, ls, indent, depth), f)
    decreases |ls|, 1
  {
    FirstReindented(ls, f);
    if depth <= MAX_DEPTH {
      if IsItem(ls[0]) {
        SequenceReindents(ft, ls, indent, depth, [], f);
      } else if MappingKey(ls[0].content).Some? {
        MappingReindents(ft, ls, indent, depth, [], f);
      }
    }
  }

  lemma {:induction false} ChildReindents(ft: FloatText, ls: seq<Line>, indent: nat, depth: nat, f: nat -> nat)
    requires IsIncreasing(f)
    ensures ParseChild(ft, Reindented(ls, f), f(indent), depth) == Moved(ParseChild(ft, ls, indent, depth), f)
    decreases |ls|, 2
  {
    if ls != [] {
      FirstReindented(ls, f);
      SameOrder(f, ls[0].indent, indent);
      BlockReindents(ft, ls, ls[0].indent, depth + 1, f);
    }
  }

  lemma {:induction false} MappingReindents(ft: FloatText, ls: seq<Line>, indent: nat, depth: nat, acc: seq<Entry>,
                                            f: nat -> nat)
    requires IsIncreasing(f)
    ensures MappingLoop(ft, Reindented(ls, f), f(indent), depth, acc) ==
            Moved(MappingLoop(ft, ls, indent, depth, acc), f)
    decreases |ls|, 0
  {
    if ls != [] {
      FirstReindented(ls, f);
      SameOrder(f, ls[0].indent, indent);
      var m := MappingKey(ls[0].content);
      if ls[0].indent == indent && !IsItem(ls[0]) && m.Some? {
        ChildReindents(ft, ls[1..], indent, depth, f);
        var r := ParseEntryValue(ft, m.value.1, ls[1..], indent, depth);
        if r.Ok? { MappingReindents(ft, r.value.1, indent, depth, acc + [Entry(m.value.0, r.value.0)], f); }
      }
    }
  }

  lemma {:induction false} SequenceReindents(ft: FloatText, ls: seq<Line>, indent: nat, depth: nat, acc: seq<Value>,
                                             f: nat -> nat)
    requires IsIncreasing(f)
    ensures SequenceLoop(ft, Reindented(ls, f), f(indent), depth, acc) ==
            Moved(SequenceLoop(ft, ls, indent, depth, acc), f)
    decreases |ls|, 0
  {
    if ls != [] {
      FirstReindented(ls, f);
      SameOrder(f, ls[0].indent, indent);
      if ls[0].indent == indent && IsItem(ls[0]) {
        ChildReindents(ft, ls[1..], indent, depth, f);
        var r := ParseItemValue(ft, TrimStart(ls[0].content[1..]), ls[1..], indent, depth);
        if r.Ok? { SequenceReindents(ft, r.value.1, indent, depth, acc + [r.value.0], f); }
      }
    }
  }

  /** Only which line is indented more than which matters, not by how much. */
  lemma IndentationIsRelative(ft: FloatText, s: string, t: string, f: nat -> nat)
    requires IsIncreasing(f) && Preprocess(t) == Reindented(Preprocess(s), f)
    ensures FromStr(ft, t) == FromStr(ft, s)
  {
    var ls := Preprocess(s);
    if ls != [] {
      FirstReindented(ls, f);
      BlockReindents(ft, ls, ls[0].indent, 0, f);
    }
  }

  // ---- what is refused -------------------------------------------------------------------------------------

  /** Below a mapping entry with a value on its line, a deeper line is refused, and so is a line without a key. */
  lemma StrayLinesRefused(ft: FloatText, key: Line, stray: Line, rest: seq<Line>)
    requires !IsItem(key) && !IsItem(stray) && MappingKey(key.content).Some? && MappingKey(key.content).value.1 != []
    ensures stray.indent > key.indent ==>
            ParseBlock(ft, [key, stray] + rest, key.indent, 0) == Err(UnexpectedIndentation)
    ensures stray.indent == key.indent && MappingKey(stray.content).None? ==>
            ParseBlock(ft, [key, stray] + rest, key.indent, 0) == Err(ExpectedKey)
  {
    var ls := [key, stray] + rest;
    assert ls[0] == key && ls[1..] == [stray] + rest && ([stray] + rest)[0] == stray;
    var m := MappingKey(key.content).value;
    var e := Entry(m.0, ParseScalar(ft, m.1));
    assert ParseEntryValue(ft, m.1, ls[1..], key.indent, 0) == Ok((e.value, ls[1..]));
    assert MappingLoop(ft, ls, key.indent, 0, []) == MappingLoop(ft, ls[1..], key.indent, 0, [] + [e]);
  }

  /** Bytes are written as their decimal numbers with commas between them. */
  lemma {:induction false} ByteListGrows(b: seq<u8>, x: u8)
    ensures ByteList([]) == [] && ByteList([x]) == Numeral(x)
    ensures b != [] ==> ByteList(b + [x]) == ByteList(b) + ("," + Numeral(x))
    decreases |b|
  {
    assert Numeral(x) + [] == Numeral(x);
    if b != [] {
      assert (b + [x])[0] == b[0] && (b + [x])[1..] == b[1..] + [x];
      if |b| == 1 {
        assert b[1..] + [x] == [x];
      } else {
        ByteListGrows(b[1..], x);
        Assoc(",", ByteList(b[1..]), "," + Numeral(x));
        Assoc(Numeral(b[0]), "," + ByteList(b[1..]), "," + Numeral(x));
      }
    }
  }

  // ---- what is written ---------------------------------------------------------------------------------------

  /** Nothing else is written like this text: it has no blanks around it and none of the special characters in it,
      begins like no marker, and is neither a word for another value nor a number. */
  ghost predicate IsPlainText(ft: FloatText, s: string) {
    && s != [] && Trim(s) == s
    && ':' !in s && '#' !in s && '\n' !in s && '\"' !in s && '\'' !in s
    && s[0] !in "-?[]{}&*!|>%@`"
    && s != "null" && s != "~" && s != "true" && s != "false"
    && ParseI64(s).None? && ft.parse(s).None?
  }

  lemma SpecialFirst(c: char)
    ensures c in "-?[]{}&*!|>%@`" <==> c in {'-', '?', '[', ']', '{', '}', '&', '*', '!', '|', '>', '%', '@', '`'}
  {
    var s := "-?[]{}&*!|>%@`";
    assert s == ['-', '?', '[', ']', '{', '}', '&', '*', '!', '|', '>', '%', '@', '`'];
    if c in {'-', '?', '[', ']', '{', '}', '&', '*', '!', '|', '>', '%', '@', '`'} {
      assert c == s[0] || c == s[1] || c == s[2] || c == s[3] || c == s[4] || c == s[5] || c == s[6] || c == s[7] ||
             c == s[8] || c == s[9] || c == s[10] || c == s[11] || c == s[12] || c == s[13];
    }
  }

  /** A string is quoted exactly if it is not plain. */
  lemma QuotedIff(ft: FloatText, s: string)
    ensures StringText(ft, s) == if IsPlainText(ft, s) then s else Quoted(s)
  {
    if s != [] { SpecialFirst(s[0]); }
  }

  lemma PlainDocumentText(ft: FloatText, s: string)
    requires IsPlainText(ft, s)
    ensures Encode(ft, Str(s)) == s + "\n"
  {
    QuotedIff(ft, s);
    var ls := [Line(0, s)];
    assert BlockLines(ft, Str(s), 0) == ls && ls[1..] == [] && Render([]) == [];
    assert Render(ls) == LineText(ls[0]) + Render([]);
    assert LineText(ls[0]) == s + "\n" by { assert Spaces(0) == "" && "" + s == s; }
    assert s + "\n" + [] == s + "\n";
  }

  /** An indentation counts in bytes: blanks of one, two and three bytes. */
  lemma {:induction false} IndentInBytes(n: nat, c: char, bytes: nat)
    requires (c == '\t' && bytes == 1) || (c == 0xA0 as char && bytes == 2) || (c == 0x2003 as char && bytes == 3)
    ensures ByteLength(seq(n, _ => c)) == n * bytes
    decreases n
  {
    if n > 0 {
      assert seq(n, _ => c)[1..] == seq(n - 1, _ => c);
      IndentInBytes(n - 1, c, bytes);
    }
  }
}
