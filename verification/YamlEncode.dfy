/** The lines the YAML encoder writes (the encoder half of `codec/yaml.rs`). */
module YamlEncode {
  import opened Wrappers
  import opened Text
  import opened Decimal
  import opened Values

  /** An output line: an indentation in spaces and what follows it. */
  datatype Line = Line(indent: nat, content: string)

  predicate IsBlockContainer(v: Value) {
    (v.Object? && v.entries != []) || (v.Array? && v.items != [])
  }

  /** Whether a plain scalar would be read back as something else. */
  predicate NeedsQuote(ft: FloatText, s: string) {
    || s == [] || s != Trim(s)
    || Contains(s, {':', '#', '\n', '\"', '\''})
    || s[0] in {'-', '?', '[', ']', '{', '}', '&', '*', '!', '|', '>', '%', '@', '`'}
    || s in {"null", "~", "true", "false"}
    || ParseI64(s).Some?
    || ft.parse(s).Some?
  }

  function EscapeChar(c: char): string {
    if c == '\"' then "\\\"" else if c == '\\' then "\\\\" else if c == '\n' then "\\n" else [c]
  }

  function Escape(s: string): string {
    if s == [] then [] else EscapeChar(s[0]) + Escape(s[1..])
  }

  function Quoted(s: string): string {
    "\"" + Escape(s) + "\""
  }

  /** A string or a key, quoted when it has to be. */
  function StringText(ft: FloatText, s: string): string {
    if NeedsQuote(ft, s) then Quoted(s) else s
  }

  function ByteList(b: seq<u8>): string {
    if b == [] then []
    else Numeral(b[0]) + if |b| == 1 then [] else "," + ByteList(b[1..])
  }

  /** `write_f64`: a number that is not finite becomes null. */
  function FloatRepr(ft: FloatText, f: Float): string {
    if f.Finite? then ft.display(f.code) else "null"
  }

  /** `write_scalar`; an empty container in scalar position is null. */
  function ScalarText(ft: FloatText, v: Value): string {
    match v
    case Null => "null"
    case Bool(b) => if b then "true" else "false"
    case Int(i) => IntText(i)
    case UInt(u) => Numeral(u)
    case Float(f) => FloatRepr(ft, f)
    case Str(s) => StringText(ft, s)
    case Bytes(b) => Quoted(ByteList(b))
    case Array(_) => "null"
    case Object(_) => "null"
  }

  /** `write_block` */
  function BlockLines(ft: FloatText, v: Value, indent: nat): (r: seq<Line>)
    ensures r != [] && r[0].indent == indent
    decreases v, 0
  {
    if v.Object? && v.entries != [] then MappingLines(ft, v.entries, indent)
    else if v.Array? && v.items != [] then SequenceLines(ft, v.items, indent)
    else [Line(indent, ScalarText(ft, v))]
  }

  function MappingLines(ft: FloatText, o: seq<Entry>, indent: nat): (r: seq<Line>)
    ensures o != [] ==> r != [] && r[0].indent == indent
    decreases o, 0
  {
    if o == [] then []
    else MarkerLines(ft, StringText(ft, o[0].key) + ":", o[0].value, indent) + MappingLines(ft, o[1..], indent)
  }

  function SequenceLines(ft: FloatText, a: seq<Value>, indent: nat): (r: seq<Line>)
    ensures a != [] ==> r != [] && r[0].indent == indent
    decreases a, 0
  {
    if a == [] then []
    else MarkerLines(ft, "-", a[0], indent) + SequenceLines(ft, a[1..], indent)
  }

  /** `write_after_marker`: a value after `key:` or `-`. */
  function MarkerLines(ft: FloatText, marker: string, v: Value, indent: nat): (r: seq<Line>)
    ensures r != [] && r[0].indent == indent
    decreases v, 1
  {
    if IsBlockContainer(v) then [Line(indent, marker)] + BlockLines(ft, v, indent + 2)
    else [Line(indent, marker + " " + InlineText(ft, v))]
  }

  /** A value on the line of its marker. */
  function InlineText(ft: FloatText, v: Value): string {
    match v
    case Object(_) => "{}"
    case Array(_) => "[]"
    case _ => ScalarText(ft, v)
  }

  function Spaces(n: nat): (s: string)
    ensures |s| == n && '\n' !in s
  {
    if n == 0 then "" else " " + Spaces(n - 1)
  }

  function LineText(l: Line): string {
    Spaces(l.indent) + l.content + "\n"
  }

  function Render(ls: seq<Line>): string {
    if ls == [] then [] else LineText(ls[0]) + Render(ls[1..])
  }

  /** `encode` */
  function Encode(ft: FloatText, v: Value): string {
    Render(BlockLines(ft, v, 0))
  }
}
