/** The TOML encoder as the source runs it: appends to one output buffer. */
module TomlWriter {
  import opened Text
  import opened Seqs
  import opened Decimal
  import opened Values
  import opened TomlEncode

  type Table = seq<Entry>

  class Writer {
    const ft: FloatText
    var out: string

    constructor (ft: FloatText)
      ensures out == [] && this.ft == ft
    {
      this.ft, out := ft, [];
    }

    method Append(s: string)
      modifies this`out
      ensures out == old(out) + s
    {
      out := out + s;
    }

    method WriteBasicString(s: string)
      modifies this`out
      ensures out == old(out) + BasicString(s)
    {
      Append("\"");
      WriteEscaped(s);
      Append("\"");
      Assoc(old(out), "\"", Escape(s));
      Assoc(old(out), "\"" + Escape(s), "\"");
    }

    /** Copies runs that need no escape whole. */
    method WriteEscaped(s: string)
      modifies this`out
      ensures out == old(out) + Escape(s)
    {
      ghost var started := out;
      var start := 0;
      assert s[0..] == s && s[0..0] == [];
      for i := 0 to |s|
        invariant 0 <= start <= i
        invariant out + s[start..i] + Escape(s[i..]) == started + Escape(s)
      {
        var e := EscapeChar(s[i]);
        RunStep(out, s, start, i);
        if e != [s[i]] {
          Append(s[start..i]);
          Append(e);
          start := i + 1;
          assert out + s[i + 1..i + 1] == out;
        }
      }
      Append(s[start..]);
      assert s[start..|s|] == s[start..] && Escape(s[|s|..]) == [] && out + [] == out;
    }

    static lemma RunStep(out: string, s: string, start: nat, i: nat)
      requires start <= i < |s|
      ensures out + s[start..i] + Escape(s[i..]) == out + s[start..i] + EscapeChar(s[i]) + Escape(s[i + 1..])
      ensures EscapeChar(s[i]) == [s[i]] ==> out + s[start..i] + EscapeChar(s[i]) == out + s[start..i + 1]
    {
      assert s[i..][0] == s[i] && s[i..][1..] == s[i + 1..];
      Assoc(out + s[start..i], EscapeChar(s[i]), Escape(s[i + 1..]));
      assert s[start..i + 1] == s[start..i] + [s[i]];
      Assoc(out, s[start..i], [s[i]]);
    }

    method WriteKey(k: string)
      modifies this`out
      ensures out == old(out) + KeyRepr(k)
    {
      if IsBareKey(k) { Append(k); } else { WriteBasicString(k); }
    }

    method WriteFloat(f: Float)
      modifies this`out
      ensures out == old(out) + FloatRepr(ft, f)
    {
      match f
      case NaN => Append("nan");
      case Infinity(negative) => Append(if negative then "-inf" else "inf");
      case Finite(n) =>
        var start := |out|;
        Append(ft.display(n));
        assert out[start..] == ft.display(n);
        if !Contains(out[start..], {'.', 'e', 'E'}) { Append(".0"); }
    }

    method WriteInline(v: Value)
      modifies this`out
      ensures out == old(out) + Inline(ft, v)
      decreases v, 0
    {
      match v
      case Null => Append("\"\"");
      case Bool(b) => Append(if b then "true" else "false");
      case Int(i) => out := WriteI64(out, i);
      case UInt(u) => out := WriteU64(out, u);
      case Float(f) => WriteFloat(f);
      case Str(s) => WriteBasicString(s);
      case Bytes(b) => WriteBytes(b);
      case Array(a) => WriteItems(a);
      case Object(o) => WriteFields(o);
    }

    method WriteBytes(b: seq<u8>)
      modifies this`out
      ensures out == old(out) + ("[" + ByteItems(b) + "]")
    {
      Append("[");
      ghost var started := out;
      assert b[0..] == b;
      for i := 0 to |b|
        invariant out + Pending(i, |b|) + ByteItems(b[i..]) == started + ByteItems(b)
      {
        assert b[i..][0] == b[i] && b[i..][1..] == b[i + 1..];
        ghost var before := out;
        if i > 0 { Append(", "); }
        out := WriteU64(out, b[i]);
        ItemWritten(before, out, Numeral(b[i]), ByteItems(b[i..]), ByteItems(b[i + 1..]), i, |b|);
      }
      Append("]");
      Closed(old(out), started, "[", ByteItems(b), out, "]");
    }

    /** The separator that the next item will be preceded by. */
    static function Pending(i: nat, n: nat): string {
      if 0 < i < n then ", " else ""
    }

    /** One more item in the buffer is one fewer to come. */
    static lemma ItemWritten(before: string, after: string, item: string, items: string, more: string, i: nat, n: nat)
      requires i < n
      requires after == before + Pending(i, n) + item
      requires items == item + if i + 1 == n then [] else ", " + more
      requires i + 1 == n ==> more == []
      ensures before + Pending(i, n) + items == after + Pending(i + 1, n) + more
    {
      var b := before + Pending(i, n);
      if i + 1 == n {
        assert item + [] == item;
      } else {
        Assoc(b, item, ", " + more);
        Assoc(after, ", ", more);
      }
    }

    static lemma Closed(start: string, started: string, open: string, body: string, end: string, close: string)
      requires started == start + open && end == started + body + close
      ensures end == start + (open + body + close)
    {
      Assoc(start, open, body);
      Assoc(start, open + body, close);
    }

    method WriteItems(a: seq<Value>)
      modifies this`out
      ensures out == old(out) + ("[" + Items(ft, a) + "]")
      decreases a, 0
    {
      Append("[");
      ghost var started := out;
      assert a[0..] == a;
      for i := 0 to |a|
        invariant out + Pending(i, |a|) + Items(ft, a[i..]) == started + Items(ft, a)
      {
        assert a[i..][0] == a[i] && a[i..][1..] == a[i + 1..];
        ghost var before := out;
        if i > 0 { Append(", "); }
        WriteInline(a[i]);
        ItemWritten(before, out, Inline(ft, a[i]), Items(ft, a[i..]), Items(ft, a[i + 1..]), i, |a|);
      }
      Append("]");
      Closed(old(out), started, "[", Items(ft, a), out, "]");
    }

    method WriteFields(o: Table)
      modifies this`out
      ensures out == old(out) + (if AllNull(o) then "{}" else "{ " + Fields(ft, o, true) + " }")
      decreases o, 1
    {
      if AllNull(o) {
        Append("{}");
        return;
      }
      Append("{ ");
      ghost var started := out;
      var first := true;
      assert o[0..] == o;
      for i := 0 to |o|
        invariant out + Fields(ft, o[i..], first) == started + Fields(ft, o, true)
      {
        assert o[i..][0] == o[i] && o[i..][1..] == o[i + 1..];
        if !o[i].value.Null? {
          ghost var before := out;
          ghost var sep := if first then "" else ", ";
          WriteNextField(o[i], first);
          first := false;
          Assoc(before, sep, FieldText(ft, o[i]) + Fields(ft, o[i + 1..], false));
          Assoc(before + sep, FieldText(ft, o[i]), Fields(ft, o[i + 1..], false));
        }
      }
      Append(" }");
      Closed(old(out), started, "{ ", Fields(ft, o, true), out, " }");
    }

    method WriteNextField(e: Entry, first: bool)
      modifies this`out
      ensures out == old(out) + (if first then "" else ", ") + FieldText(ft, e)
      decreases e, 2
    {
      if !first { Append(", "); }
      assert old(out) + "" == old(out);
      WriteField(e);
    }

    method WriteField(e: Entry)
      modifies this`out
      ensures out == old(out) + FieldText(ft, e)
      decreases e, 1
    {
      WriteKey(e.key);
      Append(" = ");
      WriteInline(e.value);
      Assoc(old(out) + KeyRepr(e.key), " = ", Inline(ft, e.value));
      Assoc(old(out), KeyRepr(e.key), " = " + Inline(ft, e.value));
    }

    /** Two passes over the entries: lines first, then sections. */
    method WriteTable(t: Table, prefix: string)
      modifies this`out
      ensures out == old(out) + TableText(ft, t, prefix)
      decreases t, 1
    {
      WriteLines(t);
      WriteSections(t, prefix);
      Assoc(old(out), Lines(ft, t), Sections(ft, t, prefix));
    }

    method WriteLines(t: Table)
      modifies this`out
      ensures out == old(out) + Lines(ft, t)
    {
      assert t[0..] == t;
      for i := 0 to |t|
        invariant out + Lines(ft, t[i..]) == old(out) + Lines(ft, t)
      {
        assert t[i..][0] == t[i] && t[i..][1..] == t[i + 1..];
        if !t[i].value.Null? && !IsSection(t[i].value) {
          ghost var before := out;
          WriteField(t[i]);
          Append("\n");
          Assoc(before, FieldText(ft, t[i]), "\n");
          Assoc(before, FieldText(ft, t[i]) + "\n", Lines(ft, t[i + 1..]));
        }
      }
    }

    method WriteSections(t: Table, prefix: string)
      modifies this`out
      ensures out == old(out) + Sections(ft, t, prefix)
      decreases t, 0
    {
      assert t[0..] == t;
      for i := 0 to |t|
        invariant out + Sections(ft, t[i..], prefix) == old(out) + Sections(ft, t, prefix)
      {
        assert t[i..][0] == t[i] && t[i..][1..] == t[i + 1..];
        ghost var before, more := out, Sections(ft, t[i + 1..], prefix);
        if IsSection(t[i].value) {
          WriteSection(t[i].value, HeaderJoin(prefix, t[i].key));
          Assoc(before, SectionText(ft, t[i].value, HeaderJoin(prefix, t[i].key)), more);
        } else {
          assert [] + more == more;
        }
      }
    }

    method WriteSection(v: Value, header: string)
      requires IsSection(v)
      modifies this`out
      ensures out == old(out) + SectionText(ft, v, header)
      decreases v, 0
    {
      match v {
        case Object(o) =>
          Append("\n[" + header + "]\n");
          WriteTable(o, header);
          Assoc(old(out), "\n[" + header + "]\n", TableText(ft, o, header));
        case Array(a) =>
          assert a[0..] == a;
          for i := 0 to |a|
            invariant out + ElementTexts(ft, a[i..], header) == old(out) + ElementTexts(ft, a, header)
          {
            assert a[i..][0] == a[i] && a[i..][1..] == a[i + 1..];
            ghost var before, body := out, TableText(ft, a[i].entries, header);
            Append("\n[[" + header + "]]\n");
            WriteTable(a[i].entries, header);
            Assoc(before, "\n[[" + header + "]]\n", body);
            Assoc(before, "\n[[" + header + "]]\n" + body, ElementTexts(ft, a[i + 1..], header));
          }
      }
    }

    method EncodeValue(v: Value)
      requires out == []
      modifies this`out
      ensures out == Encode(ft, v)
    {
      if v.Object? {
        WriteTable(v.entries, "");
      } else {
        WriteLone(v);
        assert [] + ("value = " + Inline(ft, v) + "\n") == "value = " + Inline(ft, v) + "\n";
      }
    }

    method WriteLone(v: Value)
      modifies this`out
      ensures out == old(out) + ("value = " + Inline(ft, v) + "\n")
    {
      Append("value = ");
      WriteInline(v);
      Append("\n");
      Assoc(old(out), "value = ", Inline(ft, v));
      Assoc(old(out), "value = " + Inline(ft, v), "\n");
    }
  }
}
