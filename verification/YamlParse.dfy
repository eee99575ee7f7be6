/** What the YAML parser computes (the parser half of `codec/yaml.rs`): each function maps the
    lines not read yet to a result and the lines left over. */
module YamlParse {
  import opened Wrappers
  import opened Text
  import opened Decimal
  import opened Values
  import opened YamlEncode

  const MAX_DEPTH: nat := 128

  datatype ParseError = NestingTooDeep | UnexpectedIndentation | ExpectedKey

  type Parsed<+T> = Result<(T, seq<Line>), ParseError>

  // ---- lines -------------------------------------------------------------------

  function Utf8Length(c: char): nat {
    var n := c as int;
    if n < 0x80 then 1 else if n < 0x800 then 2 else if n < 0x1_0000 then 3 else 4
  }

  function ByteLength(s: string): nat {
    if s == [] then 0 else Utf8Length(s[0]) + ByteLength(s[1..])
  }

  function NewlineAt(s: string): (n: nat)
    ensures n <= |s| && (n < |s| ==> s[n] == '\n')
  {
    if s == [] || s[0] == '\n' then 0 else 1 + NewlineAt(s[1..])
  }

  /** `str::lines`: split at newlines, each with a carriage return before it dropped. */
  function RawLines(s: string): seq<string>
    decreases |s|
  {
    if s == [] then []
    else
      var n := NewlineAt(s);
      if n == |s| then [s]
      else
        var line := if n > 0 && s[n - 1] == '\r' then s[..n - 1] else s[..n];
        [line] + RawLines(s[n + 1..])
  }

  /** The document separator `---`. */
  predicate IsSeparator(c: string) {
    |c| == 3 && c[0] == '-' && c[1] == '-' && c[2] == '-'
  }

  /** The significant part of a raw line, if any: blank lines, comments and `---` have none. */
  function Significant(raw: string): Option<Line> {
    var content := TrimStart(raw);
    TrimStartIs(raw);
    if IsSkipped(content) then None
    else Some(Line(ByteLength(raw[..|raw| - |content|]), TrimEnd(content)))
  }

  predicate IsSkipped(content: string) {
    content == [] || content[0] == '#' || IsSeparator(content)
  }

  function SignificantLines(raws: seq<string>): seq<Line> {
    if raws == [] then []
    else
      var more := SignificantLines(raws[1..]);
      match Significant(raws[0])
      case None => more
      case Some(l) => [l] + more
  }

  /** `preprocess` */
  function Preprocess(s: string): seq<Line> {
    SignificantLines(RawLines(s))
  }

  // ---- scalars -----------------------------------------------------------------

  predicate IsWrapped(t: string, q: char) {
    |t| >= 2 && t[0] == q && t[|t| - 1] == q
  }

  function UnescapeChar(c: char): char {
    match c
    case 'n' => '\n'
    case 't' => '\t'
    case _ => c
  }

  function Unescape(s: string): string {
    if s == [] then []
    else if s[0] != '\\' then [s[0]] + Unescape(s[1..])
    else if |s| == 1 then []
    else [UnescapeChar(s[1])] + Unescape(s[2..])
  }

  function Unquote(s: string): string {
    UnquoteTight(Trim(s))
  }

  function UnquoteTight(t: string): string {
    if IsWrapped(t, '\"') then Unescape(t[1..|t| - 1])
    else if IsWrapped(t, '\'') then t[1..|t| - 1]
    else t
  }

  /** The words and flow forms that stand for a value of their own. */
  function Keyword(t: string): Option<Value> {
    if t == [] then Some(Null)
    else
      match t[0]
      case 'n' => if t == "null" then Some(Null) else None
      case '~' => if t == "~" then Some(Null) else None
      case '[' => if t == "[]" then Some(Array([])) else None
      case '{' => if t == "{}" then Some(Object([])) else None
      case 't' => if t == "true" then Some(Bool(true)) else None
      case 'f' => if t == "false" then Some(Bool(false)) else None
      case _ => None
  }

  function ParseScalar(ft: FloatText, s: string): Value {
    TightScalar(ft, Trim(s))
  }

  function TightScalar(ft: FloatText, t: string): Value {
    if IsWrapped(t, '\"') || IsWrapped(t, '\'') then Str(Unquote(t))
    else if Keyword(t).Some? then Keyword(t).value
    else PlainScalar(ft, t)
  }

  function PlainScalar(ft: FloatText, t: string): Value {
    if ParseI64(t).Some? then Int(ParseI64(t).value)
    else if ParseU64(t).Some? then UInt(ParseU64(t).value)
    else if ft.parse(t).Some? then Float(ft.parse(t).value)
    else Str(t)
  }

  /** The first colon that a space or the end of the line follows. */
  function ColonAt(s: string): (r: Option<nat>)
    ensures r.Some? ==> r.value < |s|
  {
    if s == [] then None
    else if s[0] == ':' && (|s| == 1 || s[1] == ' ') then Some(0)
    else
      var i :- ColonAt(s[1..]);
      Some(i + 1)
  }

  /** `mapping_key`: the key before that colon, even one inside quotes, and what follows it. */
  function MappingKey(s: string): Option<(string, string)> {
    var i :- ColonAt(s);
    Some((Unquote(Trim(s[..i])), Trim(s[i + 1..])))
  }

  predicate IsItem(l: Line) { l.content != [] && l.content[0] == '-' }

  // ---- blocks --------------------------------------------------------------------

  function ParseBlock(ft: FloatText, ls: seq<Line>, indent: nat, depth: nat): (r: Parsed<Value>)
    requires ls != []
    ensures r.Ok? ==> |r.value.1| <= |ls|
    decreases |ls|, 1
  {
    if depth > MAX_DEPTH then Err(NestingTooDeep)
    else if IsItem(ls[0]) then SequenceLoop(ft, ls, indent, depth, [])
    else if MappingKey(ls[0].content).Some? then MappingLoop(ft, ls, indent, depth, [])
    else Ok((ParseScalar(ft, ls[0].content), ls[1..]))
  }

  /** The value of a marker with nothing after it: the deeper block that follows, or null. */
  function ParseChild(ft: FloatText, ls: seq<Line>, indent: nat, depth: nat): (r: Parsed<Value>)
    ensures r.Ok? ==> |r.value.1| <= |ls|
    decreases |ls|, 2
  {
    if ls != [] && ls[0].indent > indent then ParseBlock(ft, ls, ls[0].indent, depth + 1) else Ok((Null, ls))
  }

  /** The value after a key: on the key's line, or in the block below it. */
  function ParseEntryValue(ft: FloatText, rest: string, ls: seq<Line>, indent: nat, depth: nat): (r: Parsed<Value>)
    ensures r.Ok? ==> |r.value.1| <= |ls|
    decreases |ls|, 3
  {
    if rest != [] then Ok((ParseScalar(ft, rest), ls)) else ParseChild(ft, ls, indent, depth)
  }

  /** `parse_mapping`, with the entries read so far. */
  function MappingLoop(ft: FloatText, ls: seq<Line>, indent: nat, depth: nat, entries: seq<Entry>): (r: Parsed<Value>)
    ensures r.Ok? ==> |r.value.1| <= |ls|
    decreases |ls|, 0
  {
    if ls == [] || ls[0].indent < indent || IsItem(ls[0]) then Ok((Object(entries), ls))
    else if ls[0].indent > indent then Err(UnexpectedIndentation)
    else
      var m := MappingKey(ls[0].content);
      if m.None? then Err(ExpectedKey)
      else
        var (v, more) :- ParseEntryValue(ft, m.value.1, ls[1..], indent, depth);
        MappingLoop(ft, more, indent, depth, entries + [Entry(m.value.0, v)])
  }

  /** The value after an item marker: on its line, or in the block below it. */
  function ParseItemValue(ft: FloatText, after: string, ls: seq<Line>, indent: nat, depth: nat): (r: Parsed<Value>)
    ensures r.Ok? ==> |r.value.1| <= |ls|
    decreases |ls|, 3
  {
    if after != [] then Ok((ItemValue(ft, after), ls)) else ParseChild(ft, ls, indent, depth)
  }

  /** `parse_sequence`, with the items read so far. */
  function SequenceLoop(ft: FloatText, ls: seq<Line>, indent: nat, depth: nat, items: seq<Value>): (r: Parsed<Value>)
    ensures r.Ok? ==> |r.value.1| <= |ls|
    decreases |ls|, 0
  {
    if ls == [] || ls[0].indent < indent || !IsItem(ls[0]) then Ok((Array(items), ls))
    else if ls[0].indent > indent then Err(UnexpectedIndentation)
    else
      var (v, more) :- ParseItemValue(ft, TrimStart(ls[0].content[1..]), ls[1..], indent, depth);
      SequenceLoop(ft, more, indent, depth, items + [v])
  }

  /** An item on the line of its marker: a mapping of one key, or a scalar. */
  function ItemValue(ft: FloatText, after: string): Value {
    match MappingKey(after)
    case None => ParseScalar(ft, after)
    case Some((key, rest)) => Object([Entry(key, ParseScalar(ft, rest))])
  }

  /** `from_str` */
  function FromStr(ft: FloatText, s: string): Result<Value, ParseError> {
    var ls := Preprocess(s);
    if ls == [] then Ok(Null)
    else
      var (v, _) :- ParseBlock(ft, ls, ls[0].indent, 0);
      Ok(v)
  }
}
