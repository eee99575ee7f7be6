/** What the TOML parser computes (the parser half of `codec/toml.rs`): each function maps the
    unread input to a result and the input left over. */
module TomlParse {
  import opened Wrappers
  import opened Text
  import opened Decimal
  import opened Values
  import opened TomlTree
  import TomlEncode

  /** Arrays and inline tables may nest this deep. */
  const MAX_DEPTH: nat := 128

  type Parsed<+T> = Result<(T, string), ParseError>

  // ---- lexical level ---------------------------------------------------------

  predicate IsInlineSpace(c: char) { c in {' ', '\t', '\r'} }

  function SkipInline(s: string): (r: string)
    ensures |r| <= |s|
  {
    if s != [] && IsInlineSpace(s[0]) then SkipInline(s[1..]) else s
  }

  /** Drops input up to, not including, the next newline. */
  function SkipLine(s: string): (r: string)
    ensures |r| <= |s|
  {
    if s != [] && s[0] != '\n' then SkipLine(s[1..]) else s
  }

  /** `skip_ws_nl_comments` */
  function SkipBlank(s: string): (r: string)
    ensures |r| <= |s|
    decreases |s|
  {
    if s == [] then s
    else if IsInlineSpace(s[0]) || s[0] == '\n' then SkipBlank(s[1..])
    else if s[0] == '#' then SkipBlank(SkipLine(s[1..]))
    else s
  }

  function Expect(s: string, c: char): (r: Result<string, ParseError>)
    ensures r.Ok? ==> |r.value| < |s|
  {
    var t := SkipInline(s);
    if t != [] && t[0] == c then Ok(t[1..]) else Err(ExpectedChar(c))
  }

  function FinishLine(s: string): (r: Result<string, ParseError>)
    ensures r.Ok? ==> |r.value| <= |s|
  {
    var t := SkipInline(s);
    var u := if t != [] && t[0] == '#' then SkipLine(t) else t;
    if u == [] then Ok(u)
    else if u[0] == '\n' then Ok(u[1..])
    else Err(TrailingInput)
  }

  /** `parse_hex`: exactly `n` digits naming a Unicode scalar. */
  function ParseHex(s: string, n: nat): (r: Parsed<char>)
    ensures r.Err? ==> r.error != NoSuchTable
    ensures r.Ok? ==> |r.value.1| <= |s|
  {
    if |s| < n then Err(BadEscape)
    else
      match ParseInt(s[..n], 16, 0, 0xFFFF_FFFF)
      case None => Err(BadEscape)
      case Some(code) =>
        if 0 <= code < 0xD800 || 0xE000 <= code < 0x11_0000 then Ok((code as char, s[n..]))
        else Err(BadEscape)
  }

  /** The character named by an escape; `s` starts after the backslash. */
  function ParseEscape(s: string): (r: Parsed<char>)
    ensures r.Err? ==> r.error != NoSuchTable
    ensures r.Ok? ==> |r.value.1| < |s|
  {
    if s == [] then Err(BadEscape)
    else
      var t := s[1..];
      match s[0]
      case '\"' => Ok(('\"', t))
      case '\\' => Ok(('\\', t))
      case 'b' => Ok((8 as char, t))
      case 't' => Ok(('\t', t))
      case 'n' => Ok(('\n', t))
      case 'f' => Ok((12 as char, t))
      case 'r' => Ok(('\r', t))
      case 'u' => ParseHex(t, 4)
      case 'U' => ParseHex(t, 8)
      case _ => Err(BadEscape)
  }

  /** The rest of a basic string, appended to `out`; `s` starts after the opening quote. */
  function BasicBody(s: string, out: string): (r: Parsed<string>)
    ensures r.Err? ==> r.error != NoSuchTable
    ensures r.Ok? ==> |r.value.1| < |s|
    decreases |s|
  {
    if s == [] || s[0] == '\n' then Err(UnterminatedString)
    else if s[0] == '\"' then Ok((out, s[1..]))
    else if s[0] == '\\' then
      var (c, t) :- ParseEscape(s[1..]);
      BasicBody(t, out + [c])
    else BasicBody(s[1..], out + [s[0]])
  }

  function LiteralBody(s: string, out: string): (r: Parsed<string>)
    ensures r.Err? ==> r.error != NoSuchTable
    ensures r.Ok? ==> |r.value.1| < |s|
  {
    if s == [] || s[0] == '\n' then Err(UnterminatedString)
    else if s[0] == '\'' then Ok((out, s[1..]))
    else LiteralBody(s[1..], out + [s[0]])
  }

  function BareLength(s: string): (n: nat)
    ensures n <= |s|
  {
    if s != [] && TomlEncode.IsBareChar(s[0]) then 1 + BareLength(s[1..]) else 0
  }

  /** `parse_key_segment` */
  function KeySegment(s: string): (r: Parsed<string>)
    ensures r.Err? ==> r.error != NoSuchTable
    ensures r.Ok? ==> |r.value.1| < |s|
  {
    if s != [] && s[0] == '\"' then BasicBody(s[1..], [])
    else if s != [] && s[0] == '\'' then LiteralBody(s[1..], [])
    else
      var n := BareLength(s);
      if n == 0 then Err(ExpectedKey) else Ok((s[..n], s[n..]))
  }

  /** `parse_key_path`, after the segments in `path`. */
  function KeyPath(s: string, path: Path): (r: Parsed<Path>)
    ensures r.Err? ==> r.error != NoSuchTable
    ensures r.Ok? ==> |r.value.1| < |s| && |r.value.0| > |path|
    decreases |s|
  {
    var (k, t) :- KeySegment(SkipInline(s));
    var u := SkipInline(t);
    if u != [] && u[0] == '.' then KeyPath(u[1..], path + [k]) else Ok((path + [k], u))
  }

  // ---- scalars -----------------------------------------------------------------

  predicate EndsAtom(c: char) { c in {' ', '\t', '\r', '\n', ',', ']', '}', '#'} }

  function AtomLength(s: string): (n: nat)
    ensures n <= |s|
  {
    if s != [] && !EndsAtom(s[0]) then 1 + AtomLength(s[1..]) else 0
  }

  function WithoutUnderscores(s: string): string {
    if s == [] then [] else (if s[0] == '_' then [] else [s[0]]) + WithoutUnderscores(s[1..])
  }

  function RadixInt(tok: string): Option<Value> {
    if |tok| < 2 || tok[0] != '0' || tok[1] !in {'x', 'o', 'b'} then None
    else
      var radix := if tok[1] == 'x' then 16 else if tok[1] == 'o' then 8 else 2;
      var digits := WithoutUnderscores(tok[2..]);
      match ParseInt(digits, radix, I64_MIN, I64_MAX)
      case Some(i) => Some(Int(i))
      case None => (var u :- ParseInt(digits, radix, 0, U64_MAX); Some(UInt(u)))
  }

  function Keyword(tok: string): Option<Value> {
    match tok
    case "true" => Some(Bool(true))
    case "false" => Some(Bool(false))
    case "inf" => Some(Float(Infinity(false)))
    case "+inf" => Some(Float(Infinity(false)))
    case "-inf" => Some(Float(Infinity(true)))
    case "nan" => Some(Float(NaN))
    case "+nan" => Some(Float(NaN))
    case "-nan" => Some(Float(NaN))
    case _ => None
  }

  /** A decimal token: the signed type first, then the unsigned, then a float with a point or an
      exponent; anything else stays a string. */
  function Number(ft: FloatText, tok: string): Value {
    var cleaned := WithoutUnderscores(tok);
    var floatLike := Contains(cleaned, {'.', 'e', 'E'});
    if !floatLike && ParseI64(cleaned).Some? then Int(ParseI64(cleaned).value)
    else if !floatLike && ParseU64(cleaned).Some? then UInt(ParseU64(cleaned).value)
    else if floatLike && ft.parse(cleaned).Some? then Float(ft.parse(cleaned).value)
    else Str(tok)
  }

  /** `atom`: a bare token as a scalar. */
  function Atom(ft: FloatText, tok: string): Value {
    if Keyword(tok).Some? then Keyword(tok).value
    else if RadixInt(tok).Some? then RadixInt(tok).value
    else Number(ft, tok)
  }

  function ParseAtom(ft: FloatText, s: string): (r: Parsed<Value>)
    ensures r.Err? ==> r.error != NoSuchTable
    ensures r.Ok? ==> |r.value.1| < |s|
  {
    var n := AtomLength(s);
    var tok := Trim(s[..n]);
    if tok == [] then Err(ExpectedValue) else Ok((Atom(ft, tok), s[n..]))
  }

  // ---- values --------------------------------------------------------------------

  function ParseValue(ft: FloatText, s: string, depth: nat): (r: Parsed<Value>)
    ensures r.Ok? ==> |r.value.1| < |s|
    decreases |s|, 0
  {
    if depth > MAX_DEPTH then Err(NestingTooDeep)
    else
      var t := SkipInline(s);
      if t == [] then Err(ExpectedValue)
      else if t[0] == '\"' then
        if "\"\"\"" <= t then Err(MultiLineString)
        else
          var (str, u) :- BasicBody(t[1..], []);
          Ok((Str(str), u))
      else if t[0] == '\'' then
        if "\'\'\'" <= t then Err(MultiLineString)
        else
          var (str, u) :- LiteralBody(t[1..], []);
          Ok((Str(str), u))
      else if t[0] == '[' then ArrayLoop(ft, t[1..], depth, [])
      else if t[0] == '{' then
        var u := SkipBlank(t[1..]);
        if u != [] && u[0] == '}' then Ok((Object([]), u[1..]))
        else FieldLoop(ft, u, depth, [])
      else ParseAtom(ft, t)
  }

  /** `parse_array`, with the items read so far. */
  function ArrayLoop(ft: FloatText, s: string, depth: nat, items: seq<Value>): (r: Parsed<Value>)
    ensures r.Ok? ==> |r.value.1| < |s|
    decreases |s|, 1
  {
    var t := SkipBlank(s);
    if t != [] && t[0] == ']' then Ok((Array(items), t[1..]))
    else
      var (v, u) :- ParseValue(ft, t, depth + 1);
      var w := SkipBlank(u);
      if w != [] && w[0] == ',' then ArrayLoop(ft, w[1..], depth, items + [v])
      else if w != [] && w[0] == ']' then Ok((Array(items + [v]), w[1..]))
      else Err(ExpectedSeparator)
  }

  /** `parse_inline_table`, with the entries read so far. */
  function FieldLoop(ft: FloatText, s: string, depth: nat, entries: Table): (r: Parsed<Value>)
    ensures r.Ok? ==> |r.value.1| < |s|
    decreases |s|, 1
  {
    var (path, t) :- KeyPath(SkipBlank(s), []);
    var u :- Expect(t, '=');
    var (v, w) :- ParseValue(ft, SkipInline(u), depth + 1);
    var entries' :- SetNested(entries, path, v);
    var x := SkipBlank(w);
    if x != [] && x[0] == ',' then FieldLoop(ft, x[1..], depth, entries')
    else if x != [] && x[0] == '}' then Ok((Object(entries'), x[1..]))
    else Err(ExpectedSeparator)
  }

  // ---- documents -------------------------------------------------------------------

  /** The document read so far and the table that `key = value` lines add to. */
  datatype State = State(root: Table, current: Path)

  /** A `[[path]]` header, after its opening brackets. */
  function ElementHeader(s: string, st: State): (r: Parsed<State>)
    ensures r.Ok? ==> |r.value.1| < |s|
  {
    var (path, t) :- KeyPath(s, []);
    var u :- Expect(t, ']');
    var w :- Expect(u, ']');
    var root :- AppendArrayTable(st.root, path);
    var x :- FinishLine(w);
    Ok((State(root, path), x))
  }

  /** A `[path]` header, after its opening bracket. */
  function TableHeader(s: string, st: State): (r: Parsed<State>)
    ensures r.Ok? ==> |r.value.1| < |s|
  {
    var (path, t) :- KeyPath(s, []);
    var u :- Expect(t, ']');
    var root :- GetOrCreate(st.root, path);
    var x :- FinishLine(u);
    Ok((State(root, path), x))
  }

  /** A `key = value` line. */
  function Assignment(ft: FloatText, s: string, st: State): (r: Parsed<State>)
    ensures r.Ok? ==> |r.value.1| < |s|
  {
    var (path, t) :- KeyPath(s, []);
    var u :- Expect(SkipInline(t), '=');
    var (v, w) :- ParseValue(ft, SkipInline(u), 0);
    var base :- Resolve(st.root, st.current);
    var base' :- SetNested(base, path, v);
    var x :- FinishLine(w);
    Ok((State(Put(st.root, st.current, base'), st.current), x))
  }

  /** One statement. `s` starts with neither space nor comment. */
  function Statement(ft: FloatText, s: string, st: State): (r: Parsed<State>)
    requires s != []
    ensures r.Ok? ==> |r.value.1| < |s|
  {
    if s[0] == '[' && |s| > 1 && s[1] == '[' then ElementHeader(s[2..], st)
    else if s[0] == '[' then TableHeader(s[1..], st)
    else Assignment(ft, s, st)
  }

  /** `parse`, from a state in the middle of a document. */
  function Document(ft: FloatText, s: string, st: State): Result<Value, ParseError>
    decreases |s|
  {
    var t := SkipBlank(s);
    if t == [] then Ok(Object(st.root))
    else
      var (st', u) :- Statement(ft, t, st);
      Document(ft, u, st')
  }

  /** `from_str` */
  function FromStr(ft: FloatText, s: string): Result<Value, ParseError> {
    Document(ft, s, State([], []))
  }
}
