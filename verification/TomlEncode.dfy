/** The text the TOML encoder produces (the encoder half of `codec/toml.rs`). */
module TomlEncode {
  import opened Text
  import opened Decimal
  import opened Values

  type Table = seq<Entry>

  predicate IsArrayOfTables(a: seq<Value>) {
    a != [] && forall i :: 0 <= i < |a| ==> a[i].Object?
  }

  /** Whether a value gets its own `[section]` or `[[section]]` block. */
  predicate IsSection(v: Value) {
    match v
    case Object(o) => o != []
    case Array(a) => IsArrayOfTables(a)
    case _ => false
  }

  predicate AllNull(t: Table) {
    forall i :: 0 <= i < |t| ==> t[i].value.Null?
  }

  function EscapeChar(c: char): string {
    var n := c as int;
    if c == '\"' then "\\\""
    else if c == '\\' then "\\\\"
    else if c == '\n' then "\\n"
    else if c == '\r' then "\\r"
    else if c == '\t' then "\\t"
    else if n == 8 then "\\b"
    else if n == 12 then "\\f"
    else if n < 0x20 then "\\u00" + [DigitChar(n / 16), DigitChar(n % 16)]
    else [c]
  }

  function Escape(s: string): string {
    if s == [] then [] else EscapeChar(s[0]) + Escape(s[1..])
  }

  function BasicString(s: string): string {
    "\"" + Escape(s) + "\""
  }

  predicate IsBareChar(c: char) {
    IsAlphanumeric(c) || c == '_' || c == '-'
  }

  predicate IsBareKey(k: string) {
    k != [] && forall i :: 0 <= i < |k| ==> IsBareChar(k[i])
  }

  function KeyRepr(k: string): (r: string)
    ensures r != []
  {
    if IsBareKey(k) then k else BasicString(k)
  }

  function HeaderJoin(prefix: string, k: string): string {
    if prefix == [] then KeyRepr(k) else prefix + "." + KeyRepr(k)
  }

  function FloatRepr(ft: FloatText, f: Float): string {
    match f
    case NaN => "nan"
    case Infinity(negative) => if negative then "-inf" else "inf"
    case Finite(n) =>
      var t := ft.display(n);
      if Contains(t, {'.', 'e', 'E'}) then t else t + ".0"
  }

  function ByteItems(b: seq<u8>): string {
    if b == [] then []
    else Numeral(b[0]) + if |b| == 1 then [] else ", " + ByteItems(b[1..])
  }

  /** `write_inline` */
  function Inline(ft: FloatText, v: Value): string
    decreases v
  {
    match v
    case Null => "\"\""
    case Bool(b) => if b then "true" else "false"
    case Int(i) => IntText(i)
    case UInt(u) => Numeral(u)
    case Float(f) => FloatRepr(ft, f)
    case Str(s) => BasicString(s)
    case Bytes(b) => "[" + ByteItems(b) + "]"
    case Array(a) => "[" + Items(ft, a) + "]"
    case Object(o) => if AllNull(o) then "{}" else "{ " + Fields(ft, o, true) + " }"
  }

  function Items(ft: FloatText, a: seq<Value>): string
    decreases a
  {
    if a == [] then []
    else Inline(ft, a[0]) + if |a| == 1 then [] else ", " + Items(ft, a[1..])
  }

  /** The non-null fields of an inline table; `first` says no field is out yet. */
  function Fields(ft: FloatText, o: Table, first: bool): string
    decreases o
  {
    if o == [] then []
    else if o[0].value.Null? then Fields(ft, o[1..], first)
    else (if first then "" else ", ") + (FieldText(ft, o[0]) + Fields(ft, o[1..], false))
  }

  function FieldText(ft: FloatText, e: Entry): string
    decreases e, 0
  {
    KeyRepr(e.key) + (" = " + Inline(ft, e.value))
  }

  /** The `key = value` lines of a table: its first pass. */
  function Lines(ft: FloatText, t: Table): string {
    if t == [] then []
    else if t[0].value.Null? || IsSection(t[0].value) then Lines(ft, t[1..])
    else FieldText(ft, t[0]) + "\n" + Lines(ft, t[1..])
  }

  /** `write_table` */
  function TableText(ft: FloatText, t: Table, prefix: string): string
    decreases t, 1
  {
    Lines(ft, t) + Sections(ft, t, prefix)
  }

  /** The `[section]` and `[[section]]` blocks of a table: its second pass. */
  function Sections(ft: FloatText, t: Table, prefix: string): string
    decreases t, 0
  {
    if t == [] then []
    else SectionText(ft, t[0].value, HeaderJoin(prefix, t[0].key)) + Sections(ft, t[1..], prefix)
  }

  function SectionText(ft: FloatText, v: Value, header: string): string
    decreases v, 0
  {
    if !IsSection(v) then []
    else match v
      case Object(o) => "\n[" + header + "]\n" + TableText(ft, o, header)
      case Array(a) => ElementTexts(ft, a, header)
  }

  function ElementTexts(ft: FloatText, a: seq<Value>, header: string): string
    requires forall i :: 0 <= i < |a| ==> a[i].Object?
    decreases a, 0
  {
    if a == [] then []
    else "\n[[" + header + "]]\n" + TableText(ft, a[0].entries, header) + ElementTexts(ft, a[1..], header)
  }

  /** `encode`: a document is a table, so any other value is wrapped under `value`. */
  function Encode(ft: FloatText, v: Value): string {
    if v.Object? then TableText(ft, v.entries, "") else "value = " + Inline(ft, v) + "\n"
  }
}
