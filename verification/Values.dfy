/** The data model all codecs go through (`codec/value.rs`). */
module Values {
  import opened Wrappers
  import opened Decimal
  import Text

  /** An `f64`. A finite one is known by an opaque code; the text of a NaN never carries its payload. */
  datatype Float = NaN | Infinity(negative: bool) | Finite(code: nat)

  datatype Entry = Entry(key: string, value: Value)

  datatype Value =
    | Null
    | Bool(b: bool)
    | Int(i: i64)
    | UInt(u: u64)
    | Float(f: Float)
    | Str(s: string)
    | Bytes(bytes: seq<u8>)
    | Array(items: seq<Value>)
    | Object(entries: seq<Entry>)

  type u8 = x: int | 0 <= x < 256

  /** The float formatting and parsing of the standard library: `display` writes a finite
      number, `parse` is `str::parse::<f64>`. */
  datatype FloatText = FloatText(display: nat -> string, parse: string -> Option<Float>)

  /** A plain decimal: an optional minus, digits, and perhaps a point with more digits. `Display`
      for `f64` never uses an exponent. */
  predicate IsPlainDecimal(t: string) {
    && t != []
    && (Text.IsDigit(t[0]) || (t[0] == '-' && |t| > 1 && Text.IsDigit(t[1])))
    && forall i :: 1 <= i < |t| ==> Text.IsDigit(t[i]) || t[i] == '.'
  }

  /** Text and number are inverse: a displayed number, with or without a `.0` tail, parses back. */
  ghost predicate Inverse(ft: FloatText) {
    forall n: nat ::
      var t := ft.display(n);
      && IsPlainDecimal(t)
      && ft.parse(t) == Some(Finite(n))
      && ('.' !in t ==> ft.parse(t + ".0") == Some(Finite(n)))
  }

  /** Whatever reads as an unsigned integer also reads as a float. */
  ghost predicate ReadsIntegers(ft: FloatText) {
    forall s :: ParseU64(s).Some? ==> ft.parse(s).Some?
  }
}
