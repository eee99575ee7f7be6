/** The YAML codec as the source runs it: an output buffer appended to, and loops over an index
    into the lines, each proved to compute what `YamlEncode` and `YamlParse` say. */
module YamlMachine {
  import opened Wrappers
  import opened Seqs
  import opened Text
  import opened Decimal
  import opened Values
  import opened YamlEncode
  import opened YamlParse
  import YamlRoundTrip

  // ---- encoder -----------------------------------------------------------------

  lemma {:induction false} RenderConcat(a: seq<Line>, b: seq<Line>)
    ensures Render(a + b) == Render(a) + Render(b)
  {
    if a == [] {
      assert a + b == b;
    } else {
      assert (a + b)[1..] == a[1..] + b;
      RenderConcat(a[1..], b);
      Assoc(LineText(a[0]), Render(a[1..]), Render(b));
    }
  }

  lemma RenderOne(l: Line)
    ensures Render([l]) == LineText(l)
  {
    assert [l][1..] == [];
    assert LineText(l) + [] == LineText(l);
  }

  class Writer {
    const ft: FloatText
    var out: string

    constructor (ft: FloatText)
      ensures out == [] && this.ft == ft
    {
      this.ft, out := ft, [];
    }

    method Append(s: string)
      modifies this`out
      ensures out == old(out) + s
    {
      out := out + s;
    }

    method Pad(indent: nat)
      modifies this`out
      ensures out == old(out) + Spaces(indent)
    {
      for i := 0 to indent
        invariant out + Spaces(indent - i) == old(out) + Spaces(indent)
      {
        Assoc(out, " ", Spaces(indent - i - 1));
        Append(" ");
      }
    }

    /** Copies runs that need no escape whole. */
    method WriteQuoted(s: string)
      modifies this`out
      ensures out == old(out) + Quoted(s)
    {
      Append("\"");
      ghost var started := out;
      var start := 0;
      assert s[0..] == s && s[0..0] == [];
      for i := 0 to |s|
        invariant 0 <= start <= i
        invariant out + s[start..i] + Escape(s[i..]) == started + Escape(s)
      {
        var e := EscapeChar(s[i]);
        RunStep(out, s, start, i);
        if e != [s[i]] {
          Append(s[start..i]);
          Append(e);
          start := i + 1;
          assert out + s[i + 1..i + 1] == out;
        }
      }
      Append(s[start..]);
      assert s[start..|s|] == s[start..] && Escape(s[|s|..]) == [] && out + [] == out;
      Append("\"");
      Assoc(old(out), "\"", Escape(s));
      Assoc(old(out), "\"" + Escape(s), "\"");
    }

    static lemma RunStep(out: string, s: string, start: nat, i: nat)
      requires start <= i < |s|
      ensures out + s[start..i] + Escape(s[i..]) == out + s[start..i] + EscapeChar(s[i]) + Escape(s[i + 1..])
      ensures EscapeChar(s[i]) == [s[i]] ==> out + s[start..i] + EscapeChar(s[i]) == out + s[start..i + 1]
    {
      assert s[i..][0] == s[i] && s[i..][1..] == s[i + 1..];
      Assoc(out + s[start..i], EscapeChar(s[i]), Escape(s[i + 1..]));
      assert s[start..i + 1] == s[start..i] + [s[i]];
      Assoc(out, s[start..i], [s[i]]);
    }

    method WriteString(s: string)
      modifies this`out
      ensures out == old(out) + StringText(ft, s)
    {
      if NeedsQuote(ft, s) { WriteQuoted(s); } else { Append(s); }
    }

    method WriteScalar(v: Value)
      modifies this`out
      ensures out == old(out) + ScalarText(ft, v)
    {
      match v
      case Null => Append("null");
      case Bool(b) => Append(if b then "true" else "false");
      case Int(i) => out := WriteI64(out, i);
      case UInt(u) => out := WriteU64(out, u);
      case Float(f) => Append(FloatRepr(ft, f));
      case Str(s) => WriteString(s);
      case Bytes(b) =>
        var inner := JoinBytes(b);
        WriteQuoted(inner);
      case Array(_) => Append("null");
      case Object(_) => Append("null");
    }

    static method JoinBytes(b: seq<u8>) returns (inner: string)
      ensures inner == ByteList(b)
    {
      inner := "";
      assert b[0..] == b;
      for i := 0 to |b|
        invariant inner + (if 0 < i < |b| then "," else "") + ByteList(b[i..]) == ByteList(b)
      {
        assert b[i..][0] == b[i] && b[i..][1..] == b[i + 1..];
        if i > 0 { inner := inner + ","; }
        ghost var before := inner;
        inner := WriteU64(inner, b[i]);
        if i + 1 < |b| {
          Assoc(before, Numeral(b[i]), "," + ByteList(b[i + 1..]));
          Assoc(inner, ",", ByteList(b[i + 1..]));
        }
      }
    }

    method WriteBlock(v: Value, indent: nat)
      modifies this`out
      ensures out == old(out) + Render(BlockLines(ft, v, indent))
      decreases v, 0
    {
      if v.Object? && v.entries != [] {
        WriteMapping(v.entries, indent);
      } else if v.Array? && v.items != [] {
        WriteSequence(v.items, indent);
      } else {
        Pad(indent);
        WriteScalar(v);
        Append("\n");
        FinishedLine(old(out), Line(indent, ScalarText(ft, v)));
      }
    }

    /** A padded line with its newline is that line rendered. */
    static lemma FinishedLine(before: string, l: Line)
      ensures before + Spaces(l.indent) + l.content + "\n" == before + Render([l])
    {
      RenderOne(l);
      Assoc(before, Spaces(l.indent), l.content);
      Assoc(before, Spaces(l.indent) + l.content, "\n");
    }

    method WriteMapping(o: seq<Entry>, indent: nat)
      modifies this`out
      ensures out == old(out) + Render(MappingLines(ft, o, indent))
      decreases o, 0
    {
      assert o[0..] == o;
      for i := 0 to |o|
        invariant out + Render(MappingLines(ft, o[i..], indent)) == old(out) + Render(MappingLines(ft, o, indent))
      {
        assert o[i..][0] == o[i] && o[i..][1..] == o[i + 1..];
        ghost var before, marker := out, StringText(ft, o[i].key) + ":";
        Pad(indent);
        WriteString(o[i].key);
        Append(":");
        Assoc(before + Spaces(indent), StringText(ft, o[i].key), ":");
        WriteAfterMarker(o[i].value, indent, before, marker);
        BlockWritten(before, MarkerLines(ft, marker, o[i].value, indent), MappingLines(ft, o[i + 1..], indent));
      }
    }

    static lemma BlockWritten(before: string, ls: seq<Line>, more: seq<Line>)
      ensures before + Render(ls + more) == before + Render(ls) + Render(more)
    {
      RenderConcat(ls, more);
      Assoc(before, Render(ls), Render(more));
    }

    method WriteSequence(a: seq<Value>, indent: nat)
      modifies this`out
      ensures out == old(out) + Render(SequenceLines(ft, a, indent))
      decreases a, 0
    {
      assert a[0..] == a;
      for i := 0 to |a|
        invariant out + Render(SequenceLines(ft, a[i..], indent)) == old(out) + Render(SequenceLines(ft, a, indent))
      {
        assert a[i..][0] == a[i] && a[i..][1..] == a[i + 1..];
        ghost var before := out;
        Pad(indent);
        Append("-");
        WriteAfterMarker(a[i], indent, before, "-");
        BlockWritten(before, MarkerLines(ft, "-", a[i], indent), SequenceLines(ft, a[i + 1..], indent));
      }
    }

    /** The value after a marker that is already in the buffer. */
    method WriteAfterMarker(v: Value, indent: nat, ghost before: string, ghost marker: string)
      requires out == before + Spaces(indent) + marker
      modifies this`out
      ensures out == before + Render(MarkerLines(ft, marker, v, indent))
      decreases v, 1
    {
      if IsBlockContainer(v) {
        Append("\n");
        FinishedLine(before, Line(indent, marker));
        WriteBlock(v, indent + 2);
        BlockWritten(before, [Line(indent, marker)], BlockLines(ft, v, indent + 2));
      } else {
        Append(" ");
        if v.Object? {
          Append("{}");
        } else if v.Array? {
          Append("[]");
        } else {
          WriteScalar(v);
        }
        Append("\n");
        ghost var text := InlineText(ft, v);
        Assoc(before + Spaces(indent), marker, " ");
        Assoc(before + Spaces(indent), marker + " ", text);
        FinishedLine(before, Line(indent, marker + " " + text));
      }
    }

    method EncodeValue(v: Value)
      requires out == []
      modifies this`out
      ensures out == Encode(ft, v)
    {
      WriteBlock(v, 0);
    }
  }

  // ---- parser --------------------------------------------------------------------

  /** `mapping_key`: the first colon with a space or the end after it. */
  method FindMappingKey(s: string) returns (r: Option<(string, string)>)
    ensures r == MappingKey(s)
  {
    assert s[0..] == s;
    for i := 0 to |s|
      invariant ColonAt(s) == match ColonAt(s[i..]) { case None => None case Some(j) => Some(i + j) }
    {
      assert s[i..][0] == s[i] && s[i..][1..] == s[i + 1..];
      if s[i] == ':' && (i + 1 == |s| || s[i + 1] == ' ') {
        var key := RemoveQuotes(Trim(s[..i]));
        return Some((key, Trim(s[i + 1..])));
      }
    }
    return None;
  }

  /** `unquote`: walks the characters between double quotes, undoing escapes. */
  method RemoveEscapes(inner: string) returns (out: string)
    ensures out == Unescape(inner)
  {
    out := "";
    var i := 0;
    assert inner[0..] == inner;
    while i < |inner|
      invariant 0 <= i <= |inner|
      invariant out + Unescape(inner[i..]) == Unescape(inner)
    {
      ghost var rest := inner[i..];
      if inner[i] != '\\' {
        assert rest[1..] == inner[i + 1..];
        Assoc(out, [inner[i]], Unescape(inner[i + 1..]));
        out := out + [inner[i]];
        i := i + 1;
      } else if i + 1 == |inner| {
        i := i + 1;
      } else {
        assert rest[2..] == inner[i + 2..];
        Assoc(out, [UnescapeChar(inner[i + 1])], Unescape(inner[i + 2..]));
        out := out + [UnescapeChar(inner[i + 1])];
        i := i + 2;
      }
    }
  }

  method RemoveQuotes(s: string) returns (out: string)
    ensures out == Unquote(s)
  {
    var t := Trim(s);
    if IsWrapped(t, '\"') {
      out := RemoveEscapes(t[1..|t| - 1]);
    } else if IsWrapped(t, '\'') {
      out := t[1..|t| - 1];
    } else {
      out := t;
    }
  }

  method FindNewline(input: string, pos: nat) returns (end: nat)
    requires pos <= |input|
    ensures pos <= end <= |input| && end == pos + NewlineAt(input[pos..])
  {
    end := pos;
    while end < |input| && input[end] != '\n'
      invariant pos <= end <= |input|
      invariant NewlineAt(input[pos..]) == end - pos + NewlineAt(input[end..])
    {
      assert input[end..][1..] == input[end + 1..];
      end := end + 1;
    }
  }

  /** The next raw line of the input, and where the one after it starts. */
  method NextRawLine(input: string, pos: nat) returns (raw: string, next: nat)
    requires pos < |input|
    ensures pos < next <= |input|
    ensures RawLines(input[pos..]) == [raw] + RawLines(input[next..])
  {
    var end := FindNewline(input, pos);
    ghost var rest := input[pos..];
    raw := input[pos..end];
    if end < |input| && end > pos && input[end - 1] == '\r' { raw := input[pos..end - 1]; }
    next := if end < |input| then end + 1 else end;
    assert rest[..end - pos] == input[pos..end];
    assert end > pos ==> rest[..end - pos - 1] == input[pos..end - 1] && rest[end - pos - 1] == input[end - 1];
    assert end < |input| ==> rest[end - pos + 1..] == input[next..];
    RawStep(rest, raw, input[next..]);
  }

  /** `preprocess` */
  method ReadLines(input: string) returns (ls: seq<Line>)
    ensures ls == Preprocess(input)
  {
    ls := [];
    var pos := 0;
    assert input[0..] == input;
    while pos < |input|
      invariant 0 <= pos <= |input|
      invariant ls + Preprocess(input[pos..]) == Preprocess(input)
    {
      var raw, next := NextRawLine(input, pos);
      SignificantSplit(raw, RawLines(input[next..]));
      var l := Significant(raw);
      ghost var found := if l.Some? then [l.value] else [];
      Assoc(ls, found, Preprocess(input[next..]));
      if l.Some? { ls := ls + [l.value]; }
      pos := next;
    }
    assert ls + [] == ls;
  }

  lemma RawStep(rest: string, raw: string, more: string)
    requires rest != []
    requires var n := NewlineAt(rest);
      if n == |rest| then raw == rest && more == []
      else more == rest[n + 1..] && raw == if n > 0 && rest[n - 1] == '\r' then rest[..n - 1] else rest[..n]
    ensures RawLines(rest) == [raw] + RawLines(more)
  {}

  lemma SignificantSplit(raw: string, raws: seq<string>)
    ensures SignificantLines([raw] + raws) ==
      (if Significant(raw).Some? then [Significant(raw).value] else []) + SignificantLines(raws)
  {
    Parts([raw], raws);
    assert [] + SignificantLines(raws) == SignificantLines(raws);
  }

  /** The result and the new index are what the specification says of the lines from the old one. */
  ghost predicate Agrees(ls: seq<Line>, spec: Parsed<Value>, r: Result<Value, ParseError>, idx: nat)
    requires idx <= |ls|
  {
    match r
    case Ok(v) => spec == Ok((v, ls[idx..]))
    case Err(e) => spec == Err(e)
  }

  /** `parse_block` */
  method ReadBlock(ft: FloatText, ls: seq<Line>, start: nat, indent: nat,
                   depth: nat) returns (r: Result<Value, ParseError>, idx: nat)
    requires start < |ls|
    ensures start <= idx <= |ls| && Agrees(ls, ParseBlock(ft, ls[start..], indent, depth), r, idx)
    decreases |ls| - start, 2
  {
    if depth > MAX_DEPTH { return Err(NestingTooDeep), start; }
    assert ls[start..][0] == ls[start] && ls[start..][1..] == ls[start + 1..];
    if IsItem(ls[start]) {
      r, idx := ReadSequence(ft, ls, start, indent, depth);
    } else {
      var m := FindMappingKey(ls[start].content);
      if m.Some? {
        r, idx := ReadMapping(ft, ls, start, indent, depth);
      } else {
        r, idx := Ok(ParseScalar(ft, ls[start].content)), start + 1;
      }
    }
  }

  method ReadChild(ft: FloatText, ls: seq<Line>, start: nat, indent: nat,
                   depth: nat) returns (r: Result<Value, ParseError>, idx: nat)
    requires start <= |ls|
    ensures start <= idx <= |ls| && Agrees(ls, ParseChild(ft, ls[start..], indent, depth), r, idx)
    decreases |ls| - start, 3
  {
    if start < |ls| && ls[start].indent > indent {
      r, idx := ReadBlock(ft, ls, start, ls[start].indent, depth + 1);
    } else {
      r, idx := Ok(Null), start;
    }
  }

  method ReadEntryValue(ft: FloatText, rest: string, ls: seq<Line>, start: nat, indent: nat, depth: nat)
    returns (r: Result<Value, ParseError>, idx: nat)
    requires start <= |ls|
    ensures start <= idx <= |ls| && Agrees(ls, ParseEntryValue(ft, rest, ls[start..], indent, depth), r, idx)
    decreases |ls| - start, 4
  {
    if rest == [] {
      r, idx := ReadChild(ft, ls, start, indent, depth);
    } else {
      r, idx := Ok(ParseScalar(ft, rest)), start;
    }
  }

  method ReadItemValue(ft: FloatText, after: string, ls: seq<Line>, start: nat, indent: nat, depth: nat)
    returns (r: Result<Value, ParseError>, idx: nat)
    requires start <= |ls|
    ensures start <= idx <= |ls| && Agrees(ls, ParseItemValue(ft, after, ls[start..], indent, depth), r, idx)
    decreases |ls| - start, 4
  {
    if after == [] {
      r, idx := ReadChild(ft, ls, start, indent, depth);
    } else {
      var m := FindMappingKey(after);
      idx := start;
      r := Ok(if m.Some? then Object([Entry(m.value.0, ParseScalar(ft, m.value.1))]) else ParseScalar(ft, after));
    }
  }

  /** One round of the loop of `parse_mapping`: the loop ends with a result, or goes on. */
  method MappingRound(ft: FloatText, ls: seq<Line>, idx: nat, indent: nat, depth: nat, entries: seq<Entry>)
    returns (r: Option<Result<Value, ParseError>>, next: nat, more: seq<Entry>)
    requires idx < |ls|
    ensures idx <= next <= |ls|
    ensures r.Some? ==> Agrees(ls, MappingLoop(ft, ls[idx..], indent, depth, entries), r.value, next)
    ensures r.None? ==> idx < next
    ensures r.None? ==>
      MappingLoop(ft, ls[next..], indent, depth, more) == MappingLoop(ft, ls[idx..], indent, depth, entries)
    decreases |ls| - idx, 0
  {
    var l := ls[idx];
    next, more := idx, entries;
    if l.indent < indent || IsItem(l) { return Some(Ok(Object(entries))), next, more; }
    if l.indent > indent { return Some(Err(UnexpectedIndentation)), next, more; }
    var m := FindMappingKey(l.content);
    if m.None? { return Some(Err(ExpectedKey)), next, more; }
    var key, rest := m.value.0, m.value.1;
    assert ls[idx..][1..] == ls[idx + 1..];
    YamlRoundTrip.KeyLineStep(ft, ls[idx..], indent, key, rest, depth, entries);
    var v;
    v, next := ReadEntryValue(ft, rest, ls, idx + 1, indent, depth);
    if v.Err? { return Some(Err(v.error)), next, more; }
    r, more := None, entries + [Entry(key, v.value)];
  }

  /** `parse_mapping` */
  method ReadMapping(ft: FloatText, ls: seq<Line>, start: nat, indent: nat,
                     depth: nat) returns (r: Result<Value, ParseError>, idx: nat)
    requires start <= |ls|
    ensures start <= idx <= |ls| && Agrees(ls, MappingLoop(ft, ls[start..], indent, depth, []), r, idx)
    decreases |ls| - start, 1
  {
    idx := start;
    var entries: seq<Entry> := [];
    ghost var spec := MappingLoop(ft, ls[start..], indent, depth, []);
    while idx < |ls|
      invariant start <= idx <= |ls|
      invariant MappingLoop(ft, ls[idx..], indent, depth, entries) == spec
      decreases |ls| - idx
    {
      var done;
      done, idx, entries := MappingRound(ft, ls, idx, indent, depth, entries);
      if done.Some? { return done.value, idx; }
    }
    r := Ok(Object(entries));
  }

  /** One round of the loop of `parse_sequence`. */
  method SequenceRound(ft: FloatText, ls: seq<Line>, idx: nat, indent: nat, depth: nat, items: seq<Value>)
    returns (r: Option<Result<Value, ParseError>>, next: nat, more: seq<Value>)
    requires idx < |ls|
    ensures idx <= next <= |ls|
    ensures r.Some? ==> Agrees(ls, SequenceLoop(ft, ls[idx..], indent, depth, items), r.value, next)
    ensures r.None? ==> idx < next
    ensures r.None? ==>
      SequenceLoop(ft, ls[next..], indent, depth, more) == SequenceLoop(ft, ls[idx..], indent, depth, items)
    decreases |ls| - idx, 0
  {
    var l := ls[idx];
    next, more := idx, items;
    if l.indent < indent || !IsItem(l) { return Some(Ok(Array(items))), next, more; }
    if l.indent > indent { return Some(Err(UnexpectedIndentation)), next, more; }
    var after := TrimStart(l.content[1..]);
    assert ls[idx..][1..] == ls[idx + 1..];
    YamlRoundTrip.ItemStep(ft, ls[idx..], indent, depth, items);
    var v;
    v, next := ReadItemValue(ft, after, ls, idx + 1, indent, depth);
    if v.Err? { return Some(Err(v.error)), next, more; }
    r, more := None, items + [v.value];
  }

  /** `parse_sequence` */
  method ReadSequence(ft: FloatText, ls: seq<Line>, start: nat, indent: nat,
                      depth: nat) returns (r: Result<Value, ParseError>, idx: nat)
    requires start <= |ls|
    ensures start <= idx <= |ls| && Agrees(ls, SequenceLoop(ft, ls[start..], indent, depth, []), r, idx)
    decreases |ls| - start, 1
  {
    idx := start;
    var items: seq<Value> := [];
    ghost var spec := SequenceLoop(ft, ls[start..], indent, depth, []);
    while idx < |ls|
      invariant start <= idx <= |ls|
      invariant SequenceLoop(ft, ls[idx..], indent, depth, items) == spec
      decreases |ls| - idx
    {
      var done;
      done, idx, items := SequenceRound(ft, ls, idx, indent, depth, items);
      if done.Some? { return done.value, idx; }
    }
    r := Ok(Array(items));
  }

  /** `from_str` */
  method Decode(ft: FloatText, input: string) returns (r: Result<Value, ParseError>)
    ensures r == FromStr(ft, input)
  {
    var ls := ReadLines(input);
    if ls == [] { return Ok(Null); }
    var v, idx := ReadBlock(ft, ls, 0, ls[0].indent, 0);
    assert ls[0..] == ls;
    r := v;
  }
}
