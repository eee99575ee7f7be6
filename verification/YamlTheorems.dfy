/** The laws of the YAML codec, for every value. */
module YamlTheorems {
  import opened Wrappers
  import opened Seqs
  import opened Text
  import opened Decimal
  import opened Values
  import opened YamlEncode
  import opened YamlParse
  import opened YamlLexical
  import opened YamlRoundTrip

  // ---- splitting text into lines undoes joining them ---------------------------

  /** What a line may hold after its indentation to be significant as it stands. */
  predicate IsContent(c: string) {
    IsTight(c) && !IsSkipped(c)
  }

  predicate AllContent(ls: seq<Line>) {
    forall i :: 0 <= i < |ls| ==> IsContent(ls[i].content)
  }

  lemma {:induction false} NewlineAfter(a: string, b: string)
    requires '\n' !in a
    ensures NewlineAt(a + ("\n" + b)) == |a|
  {
    if a == [] {
      assert a + ("\n" + b) == "\n" + b;
    } else {
      assert (a + ("\n" + b))[1..] == a[1..] + ("\n" + b);
      NewlineAfter(a[1..], b);
    }
  }

  lemma RawLinesStep(a: string, b: string)
    requires '\n' !in a && (a == [] || a[|a| - 1] != '\r')
    ensures RawLines(a + ("\n" + b)) == [a] + RawLines(b)
  {
    NewlineAfter(a, b);
    Parts(a, "\n" + b);
    Assoc(a, "\n", b);
    Parts(a + "\n", b);
  }

  lemma TrimStartSpace(t: string)
    ensures TrimStart(" " + t) == TrimStart(t)
  {
    Parts(" ", t);
    assert IsWhitespace(' ');
  }

  lemma {:induction false} TrimStartSpaces(n: nat, t: string)
    requires t != [] && !IsWhitespace(t[0])
    ensures TrimStart(Spaces(n) + t) == t
  {
    if n == 0 {
      assert Spaces(n) + t == t;
    } else {
      Assoc(" ", Spaces(n - 1), t);
      TrimStartSpace(Spaces(n - 1) + t);
      TrimStartSpaces(n - 1, t);
    }
  }

  lemma {:induction false} SpacesWidth(n: nat)
    ensures ByteLength(Spaces(n)) == n
  {
    if n > 0 {
      SpacesWidth(n - 1);
      Parts(" ", Spaces(n - 1));
    }
  }

  lemma SignificantAs(raw: string, indent: nat, content: string)
    requires !IsSkipped(content) && TrimStart(raw) == content && TrimEnd(content) == content
    requires |content| <= |raw| && ByteLength(raw[..|raw| - |content|]) == indent
    ensures Significant(raw) == Some(Line(indent, content))
  {}

  lemma LineIsSignificant(l: Line)
    requires IsContent(l.content)
    ensures Significant(Spaces(l.indent) + l.content) == Some(l)
  {
    var pad := Spaces(l.indent);
    TrimStartSpaces(l.indent, l.content);
    SpacesWidth(l.indent);
    Parts(pad, l.content);
    TrimTight(l.content);
    SignificantAs(pad + l.content, l.indent, l.content);
  }

  function RawText(l: Line): string {
    Spaces(l.indent) + l.content
  }

  function RawTexts(ls: seq<Line>): seq<string> {
    if ls == [] then [] else [RawText(ls[0])] + RawTexts(ls[1..])
  }

  lemma RawTextFits(l: Line)
    requires IsTight(l.content)
    ensures var raw := RawText(l); '\n' !in raw && raw != [] && raw[|raw| - 1] != '\r'
  {
    var raw := RawText(l);
    assert raw[|raw| - 1] == l.content[|l.content| - 1];
  }

  lemma {:induction false} RawOfRender(ls: seq<Line>)
    requires AllContent(ls)
    ensures RawLines(Render(ls)) == RawTexts(ls)
  {
    if ls != [] {
      assert IsContent(ls[0].content);
      RawTextFits(ls[0]);
      Assoc(RawText(ls[0]), "\n", Render(ls[1..]));
      RawLinesStep(RawText(ls[0]), Render(ls[1..]));
      RawOfRender(ls[1..]);
    }
  }

  lemma SignificantStep(raw: string, l: Line, raws: seq<string>)
    requires Significant(raw) == Some(l)
    ensures SignificantLines([raw] + raws) == [l] + SignificantLines(raws)
  {
    Parts([raw], raws);
  }

  lemma FirstSignificant(ls: seq<Line>)
    requires ls != [] && IsContent(ls[0].content)
    ensures SignificantLines(RawTexts(ls)) == [ls[0]] + SignificantLines(RawTexts(ls[1..]))
  {
    LineIsSignificant(ls[0]);
    SignificantStep(RawText(ls[0]), ls[0], RawTexts(ls[1..]));
  }

  lemma {:induction false} SignificantOfRaw(ls: seq<Line>)
    requires AllContent(ls)
    ensures SignificantLines(RawTexts(ls)) == ls
  {
    if ls != [] {
      HeadTail(ls);
      SignificantOfRaw(ls[1..]);
      FirstSignificant(ls);
    }
  }

  /** Preprocessing rendered lines gives the lines back. */
  lemma PreprocessRender(ls: seq<Line>)
    requires AllContent(ls)
    ensures Preprocess(Render(ls)) == ls
  {
    RawOfRender(ls);
    SignificantOfRaw(ls);
  }

  // ---- every line the encoder writes is significant ----------------------------------

  lemma ContentAppend(a: Line, s: seq<Line>)
    requires IsContent(a.content) && AllContent(s)
    ensures AllContent([a] + s)
  {}

  lemma TightJoin(a: string, b: string)
    requires IsTight(a) && b != [] && !IsWhitespace(b[|b| - 1]) && '\n' !in b
    ensures IsTight(a + b) && (a + b)[0] == a[0]
  {}

  lemma KeyContent(ft: FloatText, k: string, tail: string)
    requires tail == "" || (tail[0] == ' ' && |tail| > 1 && !IsWhitespace(tail[|tail| - 1]) && '\n' !in tail)
    ensures IsContent(StringText(ft, k) + (":" + tail))
  {
    StringTextReads(ft, k);
    KeyIsNoItem(ft, k, ":" + tail);
    NoHash(ft, k);
    KeyTextContent(StringText(ft, k), tail);
  }

  lemma KeyTextContent(t: string, tail: string)
    requires IsTight(t) && t[0] != '#' && t[0] != '-'
    requires tail == "" || (tail[0] == ' ' && |tail| > 1 && !IsWhitespace(tail[|tail| - 1]) && '\n' !in tail)
    ensures IsContent(t + (":" + tail))
  {
    TightJoin(t, ":" + tail);
    SolidFirst(t + (":" + tail));
  }

  lemma SolidFirst(c: string)
    requires IsTight(c) && c[0] != '#' && c[0] != '-'
    ensures !IsSkipped(c)
  {}

  lemma NoHash(ft: FloatText, s: string)
    ensures StringText(ft, s) != [] && StringText(ft, s)[0] != '#'
  {
    if !NeedsQuote(ft, s) {
      assert forall i :: 0 <= i < |s| ==> s[i] !in {':', '#', '\n', '\"', '\''};
    }
  }

  lemma {:induction false} MarkerContent(ft: FloatText, marker: string, v: Value, indent: nat)
    requires Lawful(ft)
    requires IsContent(marker) && forall text :: IsTight(text) ==> IsContent(marker + " " + text)
    ensures AllContent(MarkerLines(ft, marker, v, indent))
    decreases v, 1
  {
    if IsBlockContainer(v) {
      BlockContent(ft, v, indent + 2);
      ContentAppend(Line(indent, marker), BlockLines(ft, v, indent + 2));
    } else {
      InlineReads(ft, v);
    }
  }

  lemma KeyMarker(ft: FloatText, k: string)
    ensures var m := StringText(ft, k) + ":"; IsContent(m) && forall text :: IsTight(text) ==> IsContent(m + " " + text)
  {
    var m := StringText(ft, k) + ":";
    KeyText(ft, k, "");
    KeyContent(ft, k, "");
    forall text | IsTight(text) ensures IsContent(m + " " + text) {
      KeyText(ft, k, text);
      KeyContent(ft, k, " " + text);
    }
  }

  lemma ItemMarker()
    ensures IsContent("-") && forall text :: IsTight(text) ==> IsContent("-" + " " + text)
  {
    forall text | IsTight(text) ensures IsContent("-" + " " + text) {
      var c := "-" + " " + text;
      assert c[1] == ' ' && c[|c| - 1] == text[|text| - 1];
    }
  }

  lemma {:induction false} MappingContent(ft: FloatText, o: seq<Entry>, indent: nat)
    requires Lawful(ft)
    ensures AllContent(MappingLines(ft, o, indent))
    decreases o, 0
  {
    if o != [] {
      KeyMarker(ft, o[0].key);
      MarkerContent(ft, StringText(ft, o[0].key) + ":", o[0].value, indent);
      MappingContent(ft, o[1..], indent);
    }
  }

  lemma {:induction false} SequenceContent(ft: FloatText, a: seq<Value>, indent: nat)
    requires Lawful(ft)
    ensures AllContent(SequenceLines(ft, a, indent))
    decreases a, 0
  {
    if a != [] {
      ItemMarker();
      MarkerContent(ft, "-", a[0], indent);
      SequenceContent(ft, a[1..], indent);
    }
  }

  lemma {:induction false} BlockContent(ft: FloatText, v: Value, indent: nat)
    requires Lawful(ft)
    ensures AllContent(BlockLines(ft, v, indent))
    decreases v, 0
  {
    if IsBlockContainer(v) {
      match v {
        case Object(o) => MappingContent(ft, o, indent);
        case Array(a) => SequenceContent(ft, a, indent);
      }
    } else {
      ScalarContent(ft, v);
    }
  }

  lemma StringContent(ft: FloatText, s: string)
    ensures IsContent(StringText(ft, s))
  {
    StringTextReads(ft, s);
    NoHash(ft, s);
    KeyIsNoItem(ft, s, "");
    assert StringText(ft, s) + "" == StringText(ft, s);
  }

  lemma WordContent(ft: FloatText, v: Value)
    requires v.Null? || v.Bool?
    ensures IsContent(ScalarText(ft, v))
  {
    KeywordReads(ft, v);
    assert ScalarText(ft, v)[0] in {'n', 't', 'f'};
  }

  lemma QuotedContent(s: string)
    ensures IsContent(Quoted(s))
  {
    QuotedReads(s);
  }

  lemma ScalarContent(ft: FloatText, v: Value)
    requires Lawful(ft) && !IsBlockContainer(v)
    ensures IsContent(ScalarText(ft, v))
  {
    if v.Int? || v.UInt? || v.Float? {
      NumberContent(ft, v);
    } else if v.Str? {
      StringContent(ft, v.s);
    } else if v.Bytes? {
      QuotedContent(ByteList(v.bytes));
    } else {
      WordContent(ft, if v.Bool? then v else Null);
    }
  }

  lemma NumberContent(ft: FloatText, v: Value)
    requires Lawful(ft) && (v.Int? || v.UInt? || v.Float?)
    ensures IsContent(ScalarText(ft, v))
  {
    var t := ScalarText(ft, v);
    match v {
      case Int(i) => IntegerReads(ft, i);
      case UInt(u) => IntegerReads(ft, u);
      case Float(f) => FloatIsTight(ft, f); if f.Finite? { assert IsPlainDecimal(t); }
    }
    assert t[0] != '#';
    assert |t| > 1 && t[0] == '-' ==> t[1] != '-';
  }

  // ---- the round trip -------------------------------------------------------------------

  /** What a document reads back as: an empty container at the top is written as null. */
  function CanonDocument(ft: FloatText, v: Value): Value {
    if v.Array? && v.items == [] then Null
    else if v.Object? && v.entries == [] then Null
    else Canon(ft, v)
  }

  /** Whether a document comes back. A lone scalar must not look like a sequence or a mapping. */
  predicate Acceptable(ft: FloatText, v: Value) {
    if IsBlockContainer(v) then Readable(v, 0)
    else
      match v
      case Int(i) => i >= 0
      case Float(f) => !("-" <= FloatRepr(ft, f))
      case Str(s) => !HasColonSpace(s)
      case _ => true
  }

  lemma EncodedLines(ft: FloatText, v: Value)
    requires Lawful(ft)
    ensures Preprocess(Encode(ft, v)) == BlockLines(ft, v, 0)
  {
    BlockContent(ft, v, 0);
    PreprocessRender(BlockLines(ft, v, 0));
  }

  /** Decoding an encoded value gives its canonical form exactly when the value is acceptable,
      and a block that comes back has every line consumed. */
  lemma RoundTrip(ft: FloatText, v: Value)
    requires Lawful(ft)
    ensures FromStr(ft, Encode(ft, v)) == Ok(CanonDocument(ft, v)) <==> Acceptable(ft, v)
    ensures !Acceptable(ft, v) ==> FromStr(ft, Encode(ft, v)) != Ok(v)
    ensures IsBlockContainer(v) && Acceptable(ft, v) ==>
      ParseBlock(ft, BlockLines(ft, v, 0), 0, 0) == Ok((Canon(ft, v), []))
  {
    if IsBlockContainer(v) { BlockDocument(ft, v); } else { ScalarRoundTrip(ft, v); }
  }

  lemma FromLines(ft: FloatText, s: string, ls: seq<Line>, r: Parsed<Value>)
    requires Preprocess(s) == ls != [] && r == ParseBlock(ft, ls, ls[0].indent, 0)
    ensures FromStr(ft, s) == if r.Ok? then Ok(r.value.0) else Err(r.error)
  {}

  lemma FirstLineAtZero(ft: FloatText, v: Value)
    ensures BlockLines(ft, v, 0) != [] && BlockLines(ft, v, 0)[0].indent == 0
  {}

  /** A value has the shape of its canonical form. */
  lemma {:induction false} AlikeCanon(ft: FloatText, v: Value)
    requires Lawful(ft)
    ensures Alike(v, Canon(ft, v))
    decreases v
  {
    match v {
      case Float(f) => FloatReads(ft, f);
      case Array(a) =>
        ItemsFixed(ft, a);
        forall i | 0 <= i < |a| ensures Alike(a[i], Canon(ft, a[i])) { AlikeCanon(ft, a[i]); }
      case Object(o) =>
        EntriesFixed(ft, o);
        forall i | 0 <= i < |o| ensures Alike(o[i].value, Canon(ft, o[i].value)) { AlikeCanon(ft, o[i].value); }
      case _ =>
    }
  }

  lemma {:induction false} AlikeSelf(v: Value)
    ensures Alike(v, v)
    decreases v
  {
    match v {
      case Array(a) => forall i | 0 <= i < |a| ensures Alike(a[i], a[i]) { AlikeSelf(a[i]); }
      case Object(o) => forall i | 0 <= i < |o| ensures Alike(o[i].value, o[i].value) { AlikeSelf(o[i].value); }
      case _ =>
    }
  }

  lemma BlockDocument(ft: FloatText, v: Value)
    requires Lawful(ft) && IsBlockContainer(v)
    ensures FromStr(ft, Encode(ft, v)) == Ok(Canon(ft, v)) <==> Readable(v, 0)
    ensures !Readable(v, 0) ==> FromStr(ft, Encode(ft, v)) != Ok(v)
    ensures Readable(v, 0) ==> ParseBlock(ft, BlockLines(ft, v, 0), 0, 0) == Ok((Canon(ft, v), []))
  {
    var ls := BlockLines(ft, v, 0);
    EncodedLines(ft, v);
    FirstLineAtZero(ft, v);
    BlockParses(ft, v, 0, 0, []);
    AlikeSelf(Canon(ft, v));
    AlikeCanon(ft, v);
    assert ls + [] == ls;
    FromLines(ft, Encode(ft, v), ls, ParseBlock(ft, ls, 0, 0));
  }

  lemma ScalarRoundTrip(ft: FloatText, v: Value)
    requires Lawful(ft) && !IsBlockContainer(v)
    ensures FromStr(ft, Encode(ft, v)) == Ok(CanonDocument(ft, v)) <==> Acceptable(ft, v)
    ensures !Acceptable(ft, v) ==> FromStr(ft, Encode(ft, v)) != Ok(v)
  {
    var ls := [Line(0, ScalarText(ft, v))];
    EncodedLines(ft, v);
    ScalarDocument(ft, v);
    FromLines(ft, Encode(ft, v), ls, ParseBlock(ft, ls, 0, 0));
  }

  lemma ItemBlock(ft: FloatText, ls: seq<Line>)
    requires ls != [] && IsItem(ls[0])
    ensures var r := ParseBlock(ft, ls, 0, 0); r.Ok? ==> r.value.0.Array?
  {
    SequenceExtends(ft, ls, 0, 0, []);
  }

  lemma KeyBlock(ft: FloatText, ls: seq<Line>)
    requires ls != [] && !IsItem(ls[0]) && MappingKey(ls[0].content).Some?
    ensures var r := ParseBlock(ft, ls, 0, 0); r.Ok? ==> r.value.0.Object?
  {
    MappingExtends(ft, ls, 0, 0, []);
  }

  lemma ScalarDocument(ft: FloatText, v: Value)
    requires Lawful(ft) && !IsBlockContainer(v)
    ensures
      var r := ParseBlock(ft, [Line(0, ScalarText(ft, v))], 0, 0);
      if Acceptable(ft, v) then r.Ok? && r.value.0 == CanonDocument(ft, v)
      else r.Err? || (r.value.0 != CanonDocument(ft, v) && r.value.0 != v)
  {
    var t := ScalarText(ft, v);
    var ls := [Line(0, t)];
    assert t != [] by { ScalarContent(ft, v); }
    if t[0] == '-' {
      ItemBlock(ft, ls);
      DashMeansNegative(ft, v);
    } else if MappingKey(t).Some? {
      KeyBlock(ft, ls);
      KeyMeansColon(ft, v, ScalarText(ft, v));
    } else {
      PlainDocument(ft, v);
    }
  }

  lemma FloatWithDash(ft: FloatText, f: Float)
    requires Lawful(ft) && FloatRepr(ft, f) != [] && FloatRepr(ft, f)[0] == '-'
    ensures !Acceptable(ft, Float(f)) && !CanonDocument(ft, Float(f)).Array?
  {
    FloatIsTight(ft, f);
    NumberReads(ft, FloatRepr(ft, f));
  }

  lemma DashMeansNegative(ft: FloatText, v: Value)
    requires Lawful(ft) && !IsBlockContainer(v) && ScalarText(ft, v) != [] && ScalarText(ft, v)[0] == '-'
    ensures !Acceptable(ft, v) && !CanonDocument(ft, v).Array?
  {
    match v {
      case Float(f) => FloatWithDash(ft, f);
      case Str(s) => KeyIsNoItem(ft, s, "");
      case _ =>
    }
  }

  lemma NonStringHasNoColon(ft: FloatText, v: Value)
    requires Lawful(ft) && !IsBlockContainer(v) && !v.Str?
    ensures ':' !in ScalarText(ft, v)
  {
    match v {
      case Int(i) => IntegerReads(ft, i);
      case UInt(u) => IntegerReads(ft, u);
      case Float(f) => FloatIsTight(ft, f);
      case Bytes(b) => ByteListHasNoColon(b); EscapeKeepsColonless(ByteList(b));
      case _ =>
    }
  }

  lemma NonStringIsNoKey(ft: FloatText, v: Value, t: string)
    requires Lawful(ft) && !IsBlockContainer(v) && !v.Str? && t == ScalarText(ft, v)
    ensures MappingKey(t).None?
  {
    NonStringHasNoColon(ft, v);
    NoColonNoKey(t);
  }

  lemma SafeStringIsNoKey(ft: FloatText, s: string, t: string)
    requires !HasColonSpace(s) && t == StringText(ft, s)
    ensures MappingKey(t).None?
  {
    StringIsKeyIff(ft, s, t);
  }

  lemma StringScalar(ft: FloatText, s: string)
    ensures ScalarText(ft, Str(s)) == StringText(ft, s)
  {}

  lemma KeyMeansColon(ft: FloatText, v: Value, t: string)
    requires Lawful(ft) && !IsBlockContainer(v) && t == ScalarText(ft, v) && MappingKey(t).Some?
    ensures v.Str? && HasColonSpace(v.s)
  {
    if !v.Str? {
      NonStringIsNoKey(ft, v, t);
    } else if !HasColonSpace(v.s) {
      StringScalar(ft, v.s);
      SafeStringIsNoKey(ft, v.s, t);
    }
  }

  lemma PlainDocument(ft: FloatText, v: Value)
    requires Lawful(ft) && !IsBlockContainer(v) && ScalarText(ft, v) != [] && ScalarText(ft, v)[0] != '-'
    requires MappingKey(ScalarText(ft, v)).None?
    ensures Acceptable(ft, v) && ParseScalar(ft, ScalarText(ft, v)) == CanonDocument(ft, v)
  {
    var t := ScalarText(ft, v);
    if v.Array? || v.Object? {
      KeywordReads(ft, Null);
    } else {
      InlineReads(ft, v);
      if v.Str? { StringIsKeyIff(ft, v.s, t); }
    }
  }

  // ---- values that come back unchanged ------------------------------------------------------

  /** In canonical form already: no byte strings, unsigned integers only past the signed range,
      and floats whose text is no integer. */
  predicate Plain(ft: FloatText, v: Value) {
    match v
    case UInt(u) => u > I64_MAX
    case Float(f) => f.Finite? && ParseI64(ft.display(f.code)).None? && ParseU64(ft.display(f.code)).None?
    case Bytes(_) => false
    case Array(a) => forall i :: 0 <= i < |a| ==> Plain(ft, a[i])
    case Object(o) => forall i :: 0 <= i < |o| ==> Plain(ft, o[i].value)
    case _ => true
  }

  lemma FloatIsFixed(ft: FloatText, f: Float)
    requires Lawful(ft)
    ensures CanonInline(ft, Float(f)) == Float(f) <==> Plain(ft, Float(f))
  {
    assert f.Finite? ==> IsPlainDecimal(ft.display(f.code));
  }

  lemma {:induction false} PlainIsFixed(ft: FloatText, v: Value)
    requires Lawful(ft)
    ensures Canon(ft, v) == v <==> Plain(ft, v)
    decreases v
  {
    match v {
      case Float(f) => FloatIsFixed(ft, f);
      case Array(a) =>
        forall i | 0 <= i < |a| ensures Canon(ft, a[i]) == a[i] <==> Plain(ft, a[i]) { PlainIsFixed(ft, a[i]); }
        ItemsFixed(ft, a);
      case Object(o) =>
        forall i | 0 <= i < |o| ensures Canon(ft, o[i].value) == o[i].value <==> Plain(ft, o[i].value) {
          PlainIsFixed(ft, o[i].value);
        }
        EntriesFixed(ft, o);
      case _ =>
    }
  }

  lemma {:induction false} ItemsFixed(ft: FloatText, a: seq<Value>)
    ensures |CanonItems(ft, a)| == |a|
    ensures forall i :: 0 <= i < |a| ==> CanonItems(ft, a)[i] == Canon(ft, a[i])
  {
    if a != [] { ItemsFixed(ft, a[1..]); }
  }

  lemma {:induction false} EntriesFixed(ft: FloatText, o: seq<Entry>)
    ensures |CanonEntries(ft, o)| == |o|
    ensures forall i :: 0 <= i < |o| ==> CanonEntries(ft, o)[i] == Entry(o[i].key, Canon(ft, o[i].value))
  {
    if o != [] { EntriesFixed(ft, o[1..]); }
  }

  /** A value survives encoding and decoding unchanged exactly when it is acceptable, in canonical form already, and
      no empty container on its own. */
  lemma ExactRoundTrip(ft: FloatText, v: Value)
    requires Lawful(ft)
    ensures FromStr(ft, Encode(ft, v)) == Ok(v) <==>
            Plain(ft, v) && Acceptable(ft, v) && v != Array([]) && v != Object([])
  {
    RoundTrip(ft, v);
    PlainIsFixed(ft, v);
  }
}
