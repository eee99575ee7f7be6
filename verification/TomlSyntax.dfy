/** Documents written out: what assignments, dotted keys, sections, arrays and inline tables mean. */
module TomlSyntax {
  import opened Wrappers
  import opened Seqs
  import opened Text
  import opened Decimal
  import opened Values
  import opened TomlTree
  import opened TomlParse
  import opened TomlEncode
  import opened TomlLexical

  /** A text that is one value, up to the end of its line. */
  predicate IsValueText(ft: FloatText, text: string, v: Value) {
    text != [] && !IsInlineSpace(text[0]) && ParseValue(ft, text + "\n", 0) == Ok((v, "\n"))
  }

  // ---- assignments -------------------------------------------------------------------------------------

  lemma AssignTo(ft: FloatText, path: Path, s: string, text: string, v: Value, st: State, t: Table)
    requires IsValueText(ft, text, v) && KeyPath(s, []) == Ok((path, "= " + (text + "\n")))
    requires Resolve(st.root, st.current).Ok? && SetNested(Resolve(st.root, st.current).value, path, v) == Ok(t)
    ensures Assignment(ft, s, st) == Ok((State(Put(st.root, st.current, t), st.current), []))
  {
    var rest := text + "\n";
    assert SkipInline("= " + rest) == "= " + rest && ("= " + rest)[1..] == " " + rest;
    assert (" " + rest)[1..] == rest && rest[0] == text[0];
    assert SkipInline(" " + rest) == SkipInline(rest) == rest;
    assert FinishLine("\n") == Ok([]);
  }

  lemma BareKeyReads(k: string, rest: string)
    requires IsBareKey(k)
    ensures KeyPath(k + (" = " + rest), []) == Ok(([k], "= " + rest))
  {
    KeyParses(k, rest);
  }

  lemma OneKey(k: string, v: Value)
    ensures SetNested([], [k], v) == Ok([Entry(k, v)])
  {
    assert [k][..0] == [] && [] + [Entry(k, v)] == [Entry(k, v)] && !HasKey([], k);
    assert GetOrCreate([], [k][..0]) == Ok([]) && Resolve([], [k][..0]) == Ok([]);
  }

  lemma DocumentOf(ft: FloatText, s: string, st: State, next: State)
    requires s != [] && IsBareChar(s[0]) && Assignment(ft, s, st) == Ok((next, []))
    ensures Document(ft, s, st) == Ok(Object(next.root))
  {
    assert SkipBlank(s) == s;
  }

  /** `key = value` is a table of that one entry. */
  lemma AssignmentDocument(ft: FloatText, k: string, text: string, v: Value)
    requires IsBareKey(k) && IsValueText(ft, text, v)
    ensures FromStr(ft, k + (" = " + (text + "\n"))) == Ok(Object([Entry(k, v)]))
  {
    var s, st := k + (" = " + (text + "\n")), State([], []);
    BareKeyReads(k, text + "\n");
    OneKey(k, v);
    AssignTo(ft, [k], s, text, v, st, [Entry(k, v)]);
    assert s[0] == k[0];
    DocumentOf(ft, s, st, State([Entry(k, v)], []));
  }

  lemma DottedKeyReads(j: string, k: string, rest: string)
    requires IsBareKey(j) && IsBareKey(k)
    ensures KeyPath(j + ("." + (k + (" = " + rest))), []) == Ok(([j, k], "= " + rest))
  {
    var tail := " = " + rest;
    assert tail[1..] == "= " + rest && SkipInline(tail) == SkipInline("= " + rest) == "= " + rest;
    var more := "." + (k + tail);
    assert more[1..] == k + tail;
    KeyPathStep(j, more, []);
    KeyPathStep(k, tail, [] + [j]);
    assert [] + [j] + [k] == [j, k];
  }

  /** `table.key = value` is a table in a table. */
  lemma DottedDocument(ft: FloatText, j: string, k: string, text: string, v: Value)
    requires IsBareKey(j) && IsBareKey(k) && IsValueText(ft, text, v)
    ensures FromStr(ft, j + ("." + (k + (" = " + (text + "\n"))))) == Ok(Object([Entry(j, Object([Entry(k, v)]))]))
  {
    var s, st := j + ("." + (k + (" = " + (text + "\n")))), State([], []);
    DottedKeyReads(j, k, text + "\n");
    TwoKeys(j, k, v);
    var t := [Entry(j, Object([Entry(k, v)]))];
    AssignTo(ft, [j, k], s, text, v, st, t);
    assert s[0] == j[0];
    DocumentOf(ft, s, st, State(t, []));
  }

  lemma TwoKeys(j: string, k: string, v: Value)
    ensures SetNested([], [j, k], v) == Ok([Entry(j, Object([Entry(k, v)]))])
  {
    assert [j, k][..1] == [j] && [j][1..] == [];
    var made := [] + [Entry(j, Object([]))];
    assert GetOrCreate([], [j]) == Ok(made);
    assert !HasKey([], j);
    LastEntry([], j, Object([]), [Entry(k, v)]);
    assert [] + [Entry(k, v)] == [Entry(k, v)] && !HasKey([], k);
    assert Resolve(made, [j]) == Ok([]);
    assert [] + [Entry(j, Object([Entry(k, v)]))] == [Entry(j, Object([Entry(k, v)]))];
  }

  // ---- sections --------------------------------------------------------------------------------------------

  lemma BareHeader(k: string, rest: string)
    requires IsBareKey(k)
    ensures KeyPath(k + ("]" + rest), []) == Ok(([k], "]" + rest))
  {
    HeaderParses([k], rest);
    assert Dotted([k]) == k;
  }

  lemma AfterHeader(ft: FloatText, root: Table, k: string, j: string, text: string, v: Value, t: Table)
    requires IsBareKey(j) && IsValueText(ft, text, v) && Resolve(root, [k]) == Ok([])
    requires t == Put(root, [k], [Entry(j, v)])
    ensures Document(ft, j + (" = " + (text + "\n")), State(root, [k])) == Ok(Object(t))
  {
    var s, st := j + (" = " + (text + "\n")), State(root, [k]);
    BareKeyReads(j, text + "\n");
    OneKey(j, v);
    AssignTo(ft, [j], s, text, v, st, [Entry(j, v)]);
    assert s[0] == j[0];
    DocumentOf(ft, s, st, State(t, [k]));
  }

  lemma FirstStatement(ft: FloatText, s: string, next: State, rest: string)
    requires s != [] && SkipBlank(s) == s && Statement(ft, s, State([], [])) == Ok((next, rest))
    ensures FromStr(ft, s) == Document(ft, rest, next)
  {}

  lemma LineEnds(below: string)
    ensures ("]" + ("\n" + below))[1..] == "\n" + below && FinishLine("\n" + below) == Ok(below)
  {
    assert ("\n" + below)[1..] == below;
  }

  lemma SectionLine(ft: FloatText, k: string, below: string, s: string)
    requires IsBareKey(k) && s == "[" + (k + ("]" + ("\n" + below)))
    ensures SkipBlank(s) == s && Statement(ft, s, State([], [])) == Ok((State([Entry(k, Object([]))], [k]), below))
  {
    BareHeader(k, "\n" + below);
    assert s[1..] == k + ("]" + ("\n" + below)) && s[1] == k[0];
    NewTable(k, Null, k);
    LineEnds(below);
  }

  /** `[table]` and an assignment below it. */
  lemma SectionDocument(ft: FloatText, k: string, j: string, text: string, v: Value)
    requires IsBareKey(k) && IsBareKey(j) && IsValueText(ft, text, v)
    ensures FromStr(ft, "[" + (k + ("]" + ("\n" + (j + (" = " + (text + "\n"))))))) ==
            Ok(Object([Entry(k, Object([Entry(j, v)]))]))
  {
    var below := j + (" = " + (text + "\n"));
    var s := "[" + (k + ("]" + ("\n" + below)));
    var root := [Entry(k, Object([]))];
    SectionLine(ft, k, below, s);
    FirstStatement(ft, s, State(root, [k]), below);
    NewTable(k, v, j);
    AfterHeader(ft, root, k, j, text, v, [Entry(k, Object([Entry(j, v)]))]);
  }

  lemma NewTable(k: string, v: Value, j: string)
    ensures GetOrCreate([], [k]) == Ok([Entry(k, Object([]))])
    ensures var root := [Entry(k, Object([]))];
            Resolve(root, [k]) == Ok([]) && Put(root, [k], [Entry(j, v)]) == [Entry(k, Object([Entry(j, v)]))]
  {
    assert [k][1..] == [];
    assert [] + [Entry(k, Object([]))] == [Entry(k, Object([]))];
    LastEntry([], k, Object([]), [Entry(j, v)]);
    assert [] + [Entry(k, Object([Entry(j, v)]))] == [Entry(k, Object([Entry(j, v)]))];
  }

  lemma ElementHeaderReads(k: string, below: string)
    requires IsBareKey(k)
    ensures ElementHeader(k + ("]" + ("]" + ("\n" + below))), State([], [])) ==
            Ok((State([Entry(k, Array([Object([])]))], [k]), below))
  {
    BareHeader(k, "]" + ("\n" + below));
    NewElement(k, Null, k);
    assert ("]" + ("]" + ("\n" + below)))[1..] == "]" + ("\n" + below);
    LineEnds(below);
  }

  lemma DoubleBracket(ft: FloatText, rest: string, s: string)
    requires s == "[[" + rest
    ensures SkipBlank(s) == s && Statement(ft, s, State([], [])) == ElementHeader(rest, State([], []))
  {
    assert s[2..] == rest;
  }

  lemma ElementLine(ft: FloatText, k: string, below: string, s: string)
    requires IsBareKey(k) && s == "[[" + (k + ("]" + ("]" + ("\n" + below))))
    ensures SkipBlank(s) == s
    ensures Statement(ft, s, State([], [])) == Ok((State([Entry(k, Array([Object([])]))], [k]), below))
  {
    ElementHeaderReads(k, below);
    DoubleBracket(ft, k + ("]" + ("]" + ("\n" + below))), s);
  }

  /** `[[array]]` and an assignment below it. */
  lemma ElementDocument(ft: FloatText, k: string, j: string, text: string, v: Value)
    requires IsBareKey(k) && IsBareKey(j) && IsValueText(ft, text, v)
    ensures FromStr(ft, "[[" + (k + ("]" + ("]" + ("\n" + (j + (" = " + (text + "\n")))))))) ==
            Ok(Object([Entry(k, Array([Object([Entry(j, v)])]))]))
  {
    var below := j + (" = " + (text + "\n"));
    var s := "[[" + (k + ("]" + ("]" + ("\n" + below))));
    var root := [Entry(k, Array([Object([])]))];
    ElementLine(ft, k, below, s);
    FirstStatement(ft, s, State(root, [k]), below);
    NewElement(k, v, j);
    AfterHeader(ft, root, k, j, text, v, [Entry(k, Array([Object([Entry(j, v)])]))]);
  }

  lemma NewElement(k: string, v: Value, j: string)
    ensures AppendArrayTable([], [k]) == Ok([Entry(k, Array([Object([])]))])
    ensures var root := [Entry(k, Array([Object([])]))];
            && Resolve(root, [k]) == Ok([])
            && Put(root, [k], [Entry(j, v)]) == [Entry(k, Array([Object([Entry(j, v)])]))]
  {
    assert [k][..0] == [] && [k][1..] == [];
    var a := Array([Object([])]);
    assert [] + [Entry(k, a)] == [Entry(k, a)];
    LastEntry([], k, a, [Entry(j, v)]);
    assert [Object([])][..0] + [Object([Entry(j, v)])] == [Object([Entry(j, v)])];
    assert [] + [Entry(k, Array([Object([Entry(j, v)])]))] == [Entry(k, Array([Object([Entry(j, v)])]))];
  }

  // ---- arrays and inline tables ------------------------------------------------------------------------------

  /** One item of an array: a comma leads to the next one, a bracket to the end, and a comma may be the last. */
  lemma ArrayItem(ft: FloatText, s: string, depth: nat, items: seq<Value>, v: Value, rest: string)
    requires s != [] && !IsBlank(s[0]) && s[0] != ']' && ParseValue(ft, s, depth + 1).Ok?
    requires ParseValue(ft, s, depth + 1).value == (v, rest)
    ensures forall t :: rest == "," + t ==> ArrayLoop(ft, s, depth, items) == ArrayLoop(ft, t, depth, items + [v])
    ensures forall t :: rest == "]" + t ==> ArrayLoop(ft, s, depth, items) == Ok((Array(items + [v]), t))
    ensures forall t :: ArrayLoop(ft, "]" + t, depth, items) == Ok((Array(items), t))
  {
    assert SkipBlank(s) == s;
    forall t
      ensures rest == "," + t ==> ArrayLoop(ft, s, depth, items) == ArrayLoop(ft, t, depth, items + [v])
      ensures rest == "]" + t ==> ArrayLoop(ft, s, depth, items) == Ok((Array(items + [v]), t))
      ensures ArrayLoop(ft, "]" + t, depth, items) == Ok((Array(items), t))
    {
      assert ("," + t)[1..] == t && ("]" + t)[1..] == t;
    }
  }

  lemma FieldBlanks(k: string, text: string)
    requires IsBareKey(k) && text != [] && !IsInlineSpace(text[0])
    ensures SkipBlank(k + (" = " + text)) == k + (" = " + text)
    ensures SkipInline("= " + text) == "= " + text && SkipInline(("= " + text)[1..]) == text
  {
    assert (k + (" = " + text))[0] == k[0];
    assert ("= " + text)[1..] == " " + text && (" " + text)[1..] == text;
    assert SkipInline(" " + text) == SkipInline(text) == text;
  }

  /** One field of an inline table. */
  lemma TableField(ft: FloatText, k: string, text: string, depth: nat, entries: Table, v: Value, rest: string)
    requires IsBareKey(k) && !HasKey(entries, k) && text != [] && !IsInlineSpace(text[0])
    requires ParseValue(ft, text, depth + 1) == Ok((v, rest))
    ensures var s := k + (" = " + text); var more := entries + [Entry(k, v)];
            && (forall t :: rest == "," + t ==> FieldLoop(ft, s, depth, entries) == FieldLoop(ft, t, depth, more))
            && (forall t :: rest == "}" + t ==> FieldLoop(ft, s, depth, entries) == Ok((Object(more), t)))
  {
    var s, more := k + (" = " + text), entries + [Entry(k, v)];
    BareKeyReads(k, text);
    FieldBlanks(k, text);
    assert [k][..0] == [] && SetNested(entries, [k], v) == Ok(more);
    forall t
      ensures rest == "," + t ==> FieldLoop(ft, s, depth, entries) == FieldLoop(ft, t, depth, more)
      ensures rest == "}" + t ==> FieldLoop(ft, s, depth, entries) == Ok((Object(more), t))
    {
      assert ("," + t)[1..] == t && ("}" + t)[1..] == t;
    }
  }

  // ---- what is written -----------------------------------------------------------------------------------------

  /** Whatever has a short escape is written with it. */
  lemma WrittenShort(c: char, e: char)
    ensures EscapeChar(c) == ['\\', e] <==> ParseEscape([e]) == Ok((c, []))
  {
    assert [e][1..] == [];
  }

  /** The other control characters are written with their number, in capitals. */
  lemma WrittenLong(c: char)
    requires c < ' ' && c !in {8 as char, '\t', '\n', 12 as char, '\r'}
    ensures var digits, n := "0123456789ABCDEF", c as int;
            EscapeChar(c) == ['\\', 'u', '0', '0', digits[n / 16], digits[n % 16]]
  {}

  lemma {:induction false} EscapedGrows(s: string)
    ensures |Escape(s)| >= |s|
  {
    if s != [] { EscapedGrows(s[1..]); }
  }

  /** The keys that need no quotes are those made of letters, digits, underscores and dashes. */
  lemma WrittenBare(k: string)
    ensures KeyRepr(k) == k <==>
            k != [] && forall c <- k :: 'a' <= c <= 'z' || 'A' <= c <= 'Z' || '0' <= c <= '9' || c in {'-', '_'}
  {
    EscapedGrows(k);
    assert |BasicString(k)| > |k|;
    if k != [] && !IsBareKey(k) {
      var i :| 0 <= i < |k| && !IsBareChar(k[i]);
      assert k[i] in k;
    }
  }

  lemma OneLineText(ft: FloatText, k: string, i: i64, prefix: string)
    requires IsBareKey(k)
    ensures TableText(ft, [Entry(k, Int(i))], prefix) == k + (" = " + IntText(i)) + "\n"
  {
    var t := [Entry(k, Int(i))];
    var line := k + (" = " + IntText(i)) + "\n";
    assert t[1..] == [];
    assert FieldText(ft, t[0]) == k + (" = " + IntText(i)) && Lines(ft, []) == [] && Sections(ft, [], prefix) == [];
    assert Lines(ft, t) == line + Lines(ft, []);
    assert Sections(ft, t, prefix) == [] + [];
    assert line + [] == line;
  }

  /** The text of a table of one number, of one in a section, and of one in an array of tables: bare keys are not
      quoted. */
  lemma WrittenTables(ft: FloatText, j: string, k: string, i: i64)
    requires IsBareKey(j) && IsBareKey(k)
    ensures var line := k + (" = " + IntText(i)) + "\n"; var t := [Entry(k, Int(i))];
            && Encode(ft, Object(t)) == line
            && Encode(ft, Object([Entry(j, Object(t))])) == "\n[" + j + "]\n" + line
            && Encode(ft, Object([Entry(j, Array([Object(t)]))])) == "\n[[" + j + "]]\n" + line
  {
    var line, t := k + (" = " + IntText(i)) + "\n", [Entry(k, Int(i))];
    OneLineText(ft, k, i, "");
    OneLineText(ft, k, i, j);
    assert [Object(t)][1..] == [] && IsArrayOfTables([Object(t)]);
    assert ElementTexts(ft, [Object(t)], j) == "\n[[" + j + "]]\n" + line + [];
    assert "\n[[" + j + "]]\n" + line + [] == "\n[[" + j + "]]\n" + line;
    OneSectionText(ft, j, Object(t));
    OneSectionText(ft, j, Array([Object(t)]));
  }

  lemma OneSectionText(ft: FloatText, j: string, v: Value)
    requires IsBareKey(j) && IsSection(v)
    ensures Encode(ft, Object([Entry(j, v)])) == SectionText(ft, v, j)
  {
    var t, text := [Entry(j, v)], SectionText(ft, v, j);
    assert t[1..] == [] && Lines(ft, []) == [] && Sections(ft, [], "") == [];
    assert Lines(ft, t) == [] && HeaderJoin("", j) == j;
    assert Sections(ft, t, "") == text + [];
    assert text + [] == text && [] + text == text;
  }

  /** Any other value is written under the key `value`. */
  lemma WrittenAlone(ft: FloatText, v: Value)
    requires !v.Object?
    ensures Encode(ft, v) == "value = " + Inline(ft, v) + "\n"
  {}
}
