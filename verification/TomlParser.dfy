/** The TOML parser as the source runs it: a cursor moved by loops over the input, each method
    proved to compute what `TomlParse` says of the input it started from. */
module TomlParser {
  import opened Wrappers
  import opened Text
  import opened Decimal
  import opened Values
  import opened TomlTree
  import opened TomlParse
  import TomlEncode
  import TomlUnique

  class Parser {
    const ft: FloatText
    const src: string
    var pos: nat

    ghost predicate Valid()
      reads this
    {
      pos <= |src|
    }

    /** The input not read yet. */
    ghost function Rest(): string
      requires Valid()
      reads this
    {
      src[pos..]
    }

    /** The result, with the input now left over, is what the specification says. */
    ghost predicate Agrees<T>(spec: Parsed<T>, r: Result<T, ParseError>)
      requires Valid()
      reads this
    {
      match r
      case Ok(v) => spec == Ok((v, Rest()))
      case Err(e) => spec == Err(e)
    }

    ghost predicate AgreesToken(spec: Result<string, ParseError>, r: Result<(), ParseError>)
      requires Valid()
      reads this
    {
      match r
      case Ok(_) => spec == Ok(Rest())
      case Err(e) => spec == Err(e)
    }

    constructor (ft: FloatText, src: string)
      ensures Valid() && Rest() == src && this.ft == ft
    {
      this.ft, this.src, pos := ft, src, 0;
    }

    function Peek(): (c: Option<char>)
      requires Valid()
      reads this
      ensures c == if Rest() == [] then None else Some(Rest()[0])
    {
      if pos < |src| then Some(src[pos]) else None
    }

    method Advance()
      requires Valid() && Rest() != []
      modifies this
      ensures Valid() && pos == old(pos) + 1 && Rest() == old(Rest())[1..]
    {
      pos := pos + 1;
    }

    method SkipInlineSpace()
      requires Valid()
      modifies this
      ensures Valid() && Rest() == SkipInline(old(Rest())) && pos >= old(pos)
    {
      while pos < |src| && IsInlineSpace(src[pos])
        invariant Valid() && pos >= old(pos)
        invariant SkipInline(Rest()) == SkipInline(old(Rest()))
      {
        Advance();
      }
    }

    /** Moves to the next newline. */
    method SkipComment()
      requires Valid()
      modifies this
      ensures Valid() && Rest() == SkipLine(old(Rest())) && pos >= old(pos)
    {
      while pos < |src| && src[pos] != '\n'
        invariant Valid() && pos >= old(pos)
        invariant SkipLine(Rest()) == SkipLine(old(Rest()))
      {
        Advance();
      }
    }

    method SkipWsNlComments()
      requires Valid()
      modifies this
      ensures Valid() && Rest() == SkipBlank(old(Rest())) && pos >= old(pos)
    {
      while pos < |src| && (IsInlineSpace(src[pos]) || src[pos] == '\n' || src[pos] == '#')
        invariant Valid() && pos >= old(pos)
        invariant SkipBlank(Rest()) == SkipBlank(old(Rest()))
        decreases |src| - pos
      {
        if src[pos] == '#' {
          Advance();
          SkipComment();
        } else {
          Advance();
        }
      }
    }

    method ExpectChar(c: char) returns (r: Result<(), ParseError>)
      requires Valid()
      modifies this
      ensures Valid() && AgreesToken(Expect(old(Rest()), c), r)
    {
      SkipInlineSpace();
      if Peek() == Some(c) {
        Advance();
        r := Ok(());
      } else {
        r := Err(ExpectedChar(c));
      }
    }

    method EndLine() returns (r: Result<(), ParseError>)
      requires Valid()
      modifies this
      ensures Valid() && AgreesToken(FinishLine(old(Rest())), r)
    {
      SkipInlineSpace();
      if Peek() == Some('#') { SkipComment(); }
      match Peek()
      case None => r := Ok(());
      case Some(c) =>
        if c == '\n' {
          Advance();
          r := Ok(());
        } else {
          r := Err(TrailingInput);
        }
    }

    method ReadHex(n: nat) returns (r: Result<char, ParseError>)
      requires Valid()
      modifies this
      ensures Valid() && Agrees(ParseHex(old(Rest()), n), r)
    {
      if pos + n > |src| { return Err(BadEscape); }
      var hex := src[pos..pos + n];
      assert hex == Rest()[..n] && src[pos + n..] == Rest()[n..];
      pos := pos + n;
      match ParseInt(hex, 16, 0, 0xFFFF_FFFF)
      case None => r := Err(BadEscape);
      case Some(code) =>
        if 0 <= code < 0xD800 || 0xE000 <= code < 0x11_0000 {
          r := Ok(code as char);
        } else {
          r := Err(BadEscape);
        }
    }

    method ReadEscape() returns (r: Result<char, ParseError>)
      requires Valid()
      modifies this
      ensures Valid() && Agrees(ParseEscape(old(Rest())), r)
    {
      if pos == |src| { return Err(BadEscape); }
      var c := src[pos];
      Advance();
      match c
      case '\"' => r := Ok('\"');
      case '\\' => r := Ok('\\');
      case 'b' => r := Ok(8 as char);
      case 't' => r := Ok('\t');
      case 'n' => r := Ok('\n');
      case 'f' => r := Ok(12 as char);
      case 'r' => r := Ok('\r');
      case 'u' => r := ReadHex(4);
      case 'U' => r := ReadHex(8);
      case _ => r := Err(BadEscape);
    }

    /** Copies runs without escapes whole. The cursor is past the opening quote. */
    method ReadBasicString() returns (r: Result<string, ParseError>)
      requires Valid()
      modifies this
      ensures Valid() && Agrees(BasicBody(old(Rest()), []), r)
    {
      var out := "";
      while true
        invariant Valid()
        invariant BasicBody(Rest(), out) == BasicBody(old(Rest()), [])
        decreases |src| - pos
      {
        var start := pos;
        assert out + src[start..pos] == out;
        while pos < |src| && src[pos] !in {'\"', '\\', '\n'}
          invariant Valid() && start <= pos
          invariant BasicBody(Rest(), out + src[start..pos]) == BasicBody(old(Rest()), [])
        {
          assert out + src[start..pos] + [src[pos]] == out + src[start..pos + 1];
          Advance();
        }
        out := out + src[start..pos];
        if pos == |src| || src[pos] == '\n' { return Err(UnterminatedString); }
        if src[pos] == '\"' {
          Advance();
          return Ok(out);
        }
        Advance();
        ghost var before := Rest();
        var c := ReadEscape();
        if c.Err? { return Err(c.error); }
        assert |Rest()| < |before|;
        out := out + [c.value];
      }
    }

    method ReadLiteralString() returns (r: Result<string, ParseError>)
      requires Valid()
      modifies this
      ensures Valid() && Agrees(LiteralBody(old(Rest()), []), r)
    {
      var start := pos;
      assert src[start..pos] == [];
      while pos < |src| && src[pos] !in {'\'', '\n'}
        invariant Valid() && start <= pos
        invariant LiteralBody(Rest(), src[start..pos]) == LiteralBody(old(Rest()), [])
      {
        assert src[start..pos] + [src[pos]] == src[start..pos + 1];
        Advance();
      }
      if Peek() != Some('\'') { return Err(UnterminatedString); }
      r := Ok(src[start..pos]);
      Advance();
    }

    method ReadKeySegment() returns (r: Result<string, ParseError>)
      requires Valid()
      modifies this
      ensures Valid() && Agrees(KeySegment(old(Rest())), r)
    {
      if Peek() == Some('\"') {
        Advance();
        r := ReadBasicString();
      } else if Peek() == Some('\'') {
        Advance();
        r := ReadLiteralString();
      } else {
        var start := pos;
        while pos < |src| && TomlEncode.IsBareChar(src[pos])
          invariant Valid() && start == old(pos) <= pos
          invariant BareLength(old(Rest())) == pos - start + BareLength(Rest())
        {
          Advance();
        }
        assert old(Rest())[..pos - start] == src[start..pos] && old(Rest())[pos - start..] == Rest();
        r := if pos == start then Err(ExpectedKey) else Ok(src[start..pos]);
      }
    }

    method ReadKeyPath() returns (r: Result<Path, ParseError>)
      requires Valid()
      modifies this
      ensures Valid() && Agrees(KeyPath(old(Rest()), []), r)
    {
      var path: Path := [];
      while true
        invariant Valid()
        invariant KeyPath(Rest(), path) == KeyPath(old(Rest()), [])
        decreases |src| - pos
      {
        ghost var before := Rest();
        SkipInlineSpace();
        var k := ReadKeySegment();
        if k.Err? { return Err(k.error); }
        SkipInlineSpace();
        assert |Rest()| < |before|;
        path := path + [k.value];
        if Peek() != Some('.') { return Ok(path); }
        Advance();
      }
    }

    method ReadAtom() returns (r: Result<Value, ParseError>)
      requires Valid()
      modifies this
      ensures Valid() && Agrees(ParseAtom(ft, old(Rest())), r)
    {
      var start := pos;
      while pos < |src| && !EndsAtom(src[pos])
        invariant Valid() && start == old(pos) <= pos
        invariant AtomLength(old(Rest())) == pos - start + AtomLength(Rest())
      {
        Advance();
      }
      assert old(Rest())[..pos - start] == src[start..pos] && old(Rest())[pos - start..] == Rest();
      var tok := Trim(src[start..pos]);
      r := if tok == [] then Err(ExpectedValue) else Ok(Atom(ft, tok));
    }

    method ReadValue(depth: nat) returns (r: Result<Value, ParseError>)
      requires Valid()
      modifies this
      ensures Valid() && Agrees(ParseValue(ft, old(Rest()), depth), r)
      decreases |src| - pos, 0
    {
      if depth > MAX_DEPTH { return Err(NestingTooDeep); }
      SkipInlineSpace();
      if pos == |src| { return Err(ExpectedValue); }
      if src[pos] == '\"' {
        if "\"\"\"" <= src[pos..] { return Err(MultiLineString); }
        Advance();
        var s := ReadBasicString();
        r := if s.Err? then Err(s.error) else Ok(Str(s.value));
      } else if src[pos] == '\'' {
        if "\'\'\'" <= src[pos..] { return Err(MultiLineString); }
        Advance();
        var s := ReadLiteralString();
        r := if s.Err? then Err(s.error) else Ok(Str(s.value));
      } else if src[pos] == '[' {
        Advance();
        r := ReadArray(depth);
      } else if src[pos] == '{' {
        Advance();
        r := ReadInlineTable(depth);
      } else {
        r := ReadAtom();
      }
    }

    /** The cursor is past the opening bracket. */
    method ReadArray(depth: nat) returns (r: Result<Value, ParseError>)
      requires Valid()
      modifies this
      ensures Valid() && Agrees(ArrayLoop(ft, old(Rest()), depth, []), r)
      decreases |src| - pos, 1
    {
      var items: seq<Value> := [];
      while true
        invariant Valid() && pos >= old(pos)
        invariant ArrayLoop(ft, Rest(), depth, items) == ArrayLoop(ft, old(Rest()), depth, [])
        decreases |src| - pos
      {
        SkipWsNlComments();
        if Peek() == Some(']') {
          Advance();
          return Ok(Array(items));
        }
        ghost var before := Rest();
        var v := ReadValue(depth + 1);
        if v.Err? { return Err(v.error); }
        assert |Rest()| < |before|;
        SkipWsNlComments();
        items := items + [v.value];
        if Peek() == Some(']') {
          Advance();
          return Ok(Array(items));
        }
        if Peek() != Some(',') { return Err(ExpectedSeparator); }
        Advance();
      }
    }

    /** The cursor is past the opening brace. */
    method ReadInlineTable(depth: nat) returns (r: Result<Value, ParseError>)
      requires Valid()
      modifies this
      ensures Valid()
      ensures var u := SkipBlank(old(Rest()));
        Agrees(if u != [] && u[0] == '}' then Ok((Object([]), u[1..])) else FieldLoop(ft, u, depth, []), r)
      decreases |src| - pos, 1
    {
      SkipWsNlComments();
      if Peek() == Some('}') {
        Advance();
        return Ok(Object([]));
      }
      ghost var u := Rest();
      var entries: Table := [];
      while true
        invariant Valid() && pos >= old(pos)
        invariant FieldLoop(ft, Rest(), depth, entries) == FieldLoop(ft, u, depth, [])
        decreases |src| - pos
      {
        ghost var before := Rest();
        SkipWsNlComments();
        var path := ReadKeyPath();
        if path.Err? { return Err(path.error); }
        var eq := ExpectChar('=');
        if eq.Err? { return Err(eq.error); }
        SkipInlineSpace();
        assert |Rest()| < |before|;
        var v := ReadValue(depth + 1);
        if v.Err? { return Err(v.error); }
        var entries' := SetNested(entries, path.value, v.value);
        if entries'.Err? { return Err(entries'.error); }
        entries := entries'.value;
        SkipWsNlComments();
        assert |Rest()| < |before|;
        if Peek() == Some('}') {
          Advance();
          return Ok(Object(entries));
        }
        if Peek() != Some(',') { return Err(ExpectedSeparator); }
        Advance();
      }
    }

    /** One statement of a document, applied to its tree and current table. */
    method ReadStatement(st: State) returns (r: Result<State, ParseError>)
      requires Valid() && Rest() != []
      modifies this
      ensures Valid() && Agrees(Statement(ft, old(Rest()), st), r)
    {
      if src[pos] == '[' && pos + 1 < |src| && src[pos + 1] == '[' {
        Advance();
        Advance();
        r := ReadElementHeader(st);
      } else if src[pos] == '[' {
        Advance();
        r := ReadTableHeader(st);
      } else {
        r := ReadAssignment(st);
      }
    }

    method ReadElementHeader(st: State) returns (r: Result<State, ParseError>)
      requires Valid()
      modifies this
      ensures Valid() && Agrees(ElementHeader(old(Rest()), st), r)
    {
      var path := ReadKeyPath();
      if path.Err? { return Err(path.error); }
      var first := ExpectChar(']');
      if first.Err? { return Err(first.error); }
      var second := ExpectChar(']');
      if second.Err? { return Err(second.error); }
      var root := AppendArrayTable(st.root, path.value);
      if root.Err? { return Err(root.error); }
      var end := EndLine();
      r := if end.Err? then Err(end.error) else Ok(State(root.value, path.value));
    }

    method ReadTableHeader(st: State) returns (r: Result<State, ParseError>)
      requires Valid()
      modifies this
      ensures Valid() && Agrees(TableHeader(old(Rest()), st), r)
    {
      var path := ReadKeyPath();
      if path.Err? { return Err(path.error); }
      var close := ExpectChar(']');
      if close.Err? { return Err(close.error); }
      var root := GetOrCreate(st.root, path.value);
      if root.Err? { return Err(root.error); }
      var end := EndLine();
      r := if end.Err? then Err(end.error) else Ok(State(root.value, path.value));
    }

    method ReadAssignment(st: State) returns (r: Result<State, ParseError>)
      requires Valid()
      modifies this
      ensures Valid() && Agrees(Assignment(ft, old(Rest()), st), r)
    {
      var path := ReadKeyPath();
      if path.Err? { return Err(path.error); }
      SkipInlineSpace();
      var eq := ExpectChar('=');
      if eq.Err? { return Err(eq.error); }
      SkipInlineSpace();
      var v := ReadValue(0);
      if v.Err? { return Err(v.error); }
      var base := Resolve(st.root, st.current);
      if base.Err? { return Err(base.error); }
      var base' := SetNested(base.value, path.value, v.value);
      if base'.Err? { return Err(base'.error); }
      var end := EndLine();
      r := if end.Err? then Err(end.error) else Ok(State(Put(st.root, st.current, base'.value), st.current));
    }

    /** Reads the rest of the input as a document. A result is a tree without duplicate keys. */
    method Parse() returns (r: Result<Value, ParseError>)
      requires Valid()
      modifies this
      ensures r == FromStr(ft, old(Rest()))
      ensures r.Ok? ==> TomlUnique.Unique(r.value)
      ensures r != Err(NoSuchTable)
    {
      TomlUnique.AcceptedIsUnique(ft, Rest());
      var st := State([], []);
      while true
        invariant Valid()
        invariant Document(ft, Rest(), st) == FromStr(ft, old(Rest()))
        decreases |src| - pos
      {
        SkipWsNlComments();
        if pos == |src| { return Ok(Object(st.root)); }
        ghost var before := Rest();
        var st' := ReadStatement(st);
        if st'.Err? { return Err(st'.error); }
        assert |Rest()| < |before|;
        st := st'.value;
      }
    }
  }
}
