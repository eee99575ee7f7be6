/** The recursive inline grammar: every value the encoder writes in inline form is read back in
    canonical form, or rejected, and nothing beyond it is consumed. */
module TomlInline {
  import opened Wrappers
  import opened Seqs
  import opened Text
  import opened Decimal
  import opened Values
  import opened TomlTree
  import opened TomlParse
  import opened TomlEncode
  import opened TomlLexical

  type Table = seq<Entry>

  /** What an inline value reads back as: a null as an empty string (inside a table it is
      omitted), a byte string as integers, an integer in the signed type when it fits. */
  function Canon(v: Value): Value {
    match v
    case Null => Str("")
    case UInt(u) => CanonInt(u)
    case Bytes(b) => Array(CanonBytes(b))
    case Array(a) => Array(CanonItems(a))
    case Object(o) => Object(CanonFields(o))
    case _ => v
  }

  function CanonBytes(b: seq<u8>): seq<Value> {
    seq(|b|, i requires 0 <= i < |b| => Int(b[i]))
  }

  function CanonItems(a: seq<Value>): (r: seq<Value>)
    ensures |r| == |a| && forall i :: 0 <= i < |a| ==> r[i] == Canon(a[i])
  {
    if a == [] then [] else [Canon(a[0])] + CanonItems(a[1..])
  }

  function CanonFields(o: Table): Table {
    if o == [] then []
    else if o[0].value.Null? then CanonFields(o[1..])
    else [Entry(o[0].key, Canon(o[0].value))] + CanonFields(o[1..])
  }

  /** No two entries that get written share a key. */
  predicate DistinctKeys(t: Table) {
    forall i, j :: 0 <= i < j < |t| && !t[i].value.Null? && !t[j].value.Null? ==> t[i].key != t[j].key
  }

  /** None of the entries that get written has a key of `taken`. */
  predicate Fresh(t: Table, taken: Table) {
    forall i :: 0 <= i < |t| && !t[i].value.Null? ==> !HasKey(taken, t[i].key)
  }

  /** Whether an inline value is accepted at a nesting depth: within the limit all the way
      down, and without duplicate keys in any inline table. */
  predicate Readable(v: Value, depth: nat) {
    && depth <= MAX_DEPTH
    && match v
       case Bytes(b) => b == [] || depth < MAX_DEPTH
       case Array(a) => forall i :: 0 <= i < |a| ==> Readable(a[i], depth + 1)
       case Object(o) => DistinctKeys(o) && FieldsReadable(o, depth + 1)
       case _ => true
  }

  predicate FieldsReadable(o: Table, depth: nat) {
    forall i :: 0 <= i < |o| && !o[i].value.Null? ==> Readable(o[i].value, depth)
  }

  /** The outcome of reading `v` when `rest` follows. */
  ghost predicate Outcome<T(!new)>(r: Parsed<T>, ok: bool, v: T, rest: string) {
    if ok then r == Ok((v, rest)) else r.Err?
  }

  ghost predicate ParsesBack(ft: FloatText, v: Value, depth: nat) {
    forall rest :: Terminated(rest) ==>
      Outcome(ParseValue(ft, Inline(ft, v) + rest, depth), Readable(v, depth), Canon(v), rest)
  }

  // ---- scalars -----------------------------------------------------------------

  lemma AtomValue(ft: FloatText, tok: string, rest: string, depth: nat)
    requires tok != [] && tok[0] !in {'\"', '\'', '[', '{'}
    requires forall c <- tok :: !EndsAtom(c) && !IsWhitespace(c)
    requires Terminated(rest) && depth <= MAX_DEPTH
    ensures ParseValue(ft, tok + rest, depth) == Ok((Atom(ft, tok), rest))
  {
    AtomParses(ft, tok, rest);
    assert (tok + rest)[0] == tok[0] && tok[0] in tok;
    assert SkipInline(tok + rest) == tok + rest;
  }

  lemma StringValue(ft: FloatText, s: string, rest: string, depth: nat)
    requires Terminated(rest) && depth <= MAX_DEPTH
    ensures ParseValue(ft, BasicString(s) + rest, depth) == Ok((Str(s), rest))
  {
    BasicStringParses(s, rest);
    NoTripleQuote(s, rest);
    assert SkipInline(BasicString(s) + rest) == BasicString(s) + rest;
  }

  /** The text of a number or a boolean is one token that reads as its canonical value. */
  lemma ScalarToken(ft: FloatText, v: Value)
    requires Inverse(ft) && (v.Bool? || v.Int? || v.UInt? || v.Float?)
    ensures var tok := Inline(ft, v); tok != [] && tok[0] !in {'\"', '\'', '[', '{'}
    ensures forall c <- Inline(ft, v) :: !EndsAtom(c) && !IsWhitespace(c)
    ensures Atom(ft, Inline(ft, v)) == Canon(v)
  {
    match v {
      case Bool(b) =>
      case Int(i) => IntegerAtom(ft, i);
      case UInt(u) => IntegerAtom(ft, u);
      case Float(f) => FloatAtom(ft, f);
    }
  }

  lemma ScalarParses(ft: FloatText, v: Value, depth: nat)
    requires Inverse(ft) && !v.Bytes? && !v.Array? && !v.Object?
    ensures ParsesBack(ft, v, depth)
  {
    forall rest | Terminated(rest)
      ensures Outcome(ParseValue(ft, Inline(ft, v) + rest, depth), Readable(v, depth), Canon(v), rest)
    {
      if depth <= MAX_DEPTH {
        if v.Null? || v.Str? {
          var s := if v.Null? then "" else v.s;
          assert Inline(ft, v) == BasicString(s);
          StringValue(ft, s, rest, depth);
        } else {
          ScalarToken(ft, v);
          AtomValue(ft, Inline(ft, v), rest, depth);
        }
      }
    }
  }

  /** No inline value starts with a space, a comment or a closing bracket. */
  lemma InlineStart(ft: FloatText, v: Value)
    requires Inverse(ft)
    ensures Inline(ft, v) != [] && !IsBlank(Inline(ft, v)[0]) && Inline(ft, v)[0] !in {']', '}'}
  {
    match v {
      case Int(i) => IntegerAtom(ft, i); assert IntText(i)[0] in IntText(i);
      case UInt(u) => assert IsDigit(Numeral(u)[0]);
      case Float(f) => FloatAtom(ft, f); assert FloatRepr(ft, f)[0] in FloatRepr(ft, f);
      case _ =>
    }
  }

  // ---- arrays --------------------------------------------------------------------

  lemma SkipBlankPad(pad: string, t: string)
    requires pad == "" || pad == " "
    requires t == [] || !IsBlank(t[0])
    ensures SkipBlank(pad + t) == t && SkipBlank(t) == t
  {
    if pad == "" { assert pad + t == t; } else { assert (pad + t)[1..] == t; }
  }

  predicate ItemsReadable(a: seq<Value>, depth: nat) {
    forall i :: 0 <= i < |a| ==> Readable(a[i], depth)
  }

  lemma ItemStep(ft: FloatText, v: Value, depth: nat, pad: string, tail: string, acc: seq<Value>)
    requires Inverse(ft) && ParsesBack(ft, v, depth + 1)
    requires pad == "" || pad == " "
    requires tail != [] && tail[0] in {',', ']'}
    ensures !Readable(v, depth + 1) ==> ArrayLoop(ft, pad + (Inline(ft, v) + tail), depth, acc).Err?
    ensures Readable(v, depth + 1) ==>
      ArrayLoop(ft, pad + (Inline(ft, v) + tail), depth, acc) ==
        if tail[0] == ',' then ArrayLoop(ft, tail[1..], depth, acc + [Canon(v)])
        else Ok((Array(acc + [Canon(v)]), tail[1..]))
  {
    InlineStart(ft, v);
    var t := Inline(ft, v) + tail;
    SkipBlankPad(pad, t);
    assert Outcome(ParseValue(ft, t, depth + 1), Readable(v, depth + 1), Canon(v), tail);
    assert SkipBlank(tail) == tail;
  }

  lemma ItemsText(ft: FloatText, a: seq<Value>, rest: string)
    requires a != []
    ensures Items(ft, a) + rest ==
      Inline(ft, a[0]) + if |a| == 1 then rest else "," + (" " + (Items(ft, a[1..]) + rest))
  {
    if |a| == 1 {
      assert Items(ft, a) == Inline(ft, a[0]);
    } else {
      var more := Items(ft, a[1..]);
      Assoc(Inline(ft, a[0]), ", " + more, rest);
      Assoc(", ", more, rest);
      assert ", " == "," + " ";
      Assoc(",", " ", more + rest);
    }
  }

  lemma {:induction false} ItemsParse(ft: FloatText, a: seq<Value>, depth: nat, pad: string, acc: seq<Value>,
                                      rest: string)
    requires Inverse(ft) && a != []
    requires forall i :: 0 <= i < |a| ==> ParsesBack(ft, a[i], depth + 1)
    requires pad == "" || pad == " "
    ensures Outcome(ArrayLoop(ft, pad + (Items(ft, a) + ("]" + rest)), depth, acc), ItemsReadable(a, depth + 1),
                    Array(acc + CanonItems(a)), rest)
    decreases |a|
  {
    ItemsText(ft, a, "]" + rest);
    if |a| == 1 {
      ItemStep(ft, a[0], depth, pad, "]" + rest, acc);
      Parts("]", rest);
      assert CanonItems(a) == [Canon(a[0])];
    } else {
      var next := " " + (Items(ft, a[1..]) + ("]" + rest));
      Parts(",", next);
      ItemStep(ft, a[0], depth, pad, "," + next, acc);
      ItemsParse(ft, a[1..], depth, " ", acc + [Canon(a[0])], rest);
      Assoc(acc, [Canon(a[0])], CanonItems(a[1..]));
      assert ItemsReadable(a, depth + 1) <==> Readable(a[0], depth + 1) && ItemsReadable(a[1..], depth + 1);
    }
  }

  lemma ArrayParses(ft: FloatText, a: seq<Value>, depth: nat, rest: string)
    requires Inverse(ft) && depth <= MAX_DEPTH
    requires forall i :: 0 <= i < |a| ==> ParsesBack(ft, a[i], depth + 1)
    ensures Outcome(ParseValue(ft, "[" + Items(ft, a) + "]" + rest, depth), ItemsReadable(a, depth + 1),
                    Array(CanonItems(a)), rest)
  {
    var s := "[" + Items(ft, a) + "]" + rest;
    var t := Items(ft, a) + ("]" + rest);
    Assoc("[" + Items(ft, a), "]", rest);
    Assoc("[", Items(ft, a), "]" + rest);
    Parts("[", t);
    assert SkipInline(s) == s;
    if a == [] {
      assert t == "]" + rest;
      Parts("]", rest);
      assert SkipBlank(t) == t;
    } else {
      ItemsParse(ft, a, depth, "", [], rest);
      assert "" + t == t;
      assert [] + CanonItems(a) == CanonItems(a);
    }
  }

  function ByteValues(b: seq<u8>): (r: seq<Value>)
    ensures |r| == |b| && forall i :: 0 <= i < |b| ==> r[i] == UInt(b[i])
  {
    if b == [] then [] else [UInt(b[0])] + ByteValues(b[1..])
  }

  lemma {:induction false} ByteItemsAsItems(ft: FloatText, b: seq<u8>)
    ensures ByteItems(b) == Items(ft, ByteValues(b))
  {
    if b != [] {
      ByteItemsAsItems(ft, b[1..]);
      assert ByteValues(b)[1..] == ByteValues(b[1..]);
    }
  }

  lemma BytesParse(ft: FloatText, b: seq<u8>, depth: nat, rest: string)
    requires Inverse(ft) && depth <= MAX_DEPTH
    ensures Outcome(ParseValue(ft, "[" + ByteItems(b) + "]" + rest, depth), Readable(Bytes(b), depth),
                    Array(CanonBytes(b)), rest)
  {
    var a := ByteValues(b);
    ByteItemsAsItems(ft, b);
    forall i | 0 <= i < |a|
      ensures ParsesBack(ft, a[i], depth + 1)
    {
      ScalarParses(ft, a[i], depth + 1);
    }
    ArrayParses(ft, a, depth, rest);
    assert CanonItems(a) == CanonBytes(b);
    assert ItemsReadable(a, depth + 1) <==> Readable(Bytes(b), depth) by {
      if b != [] { assert a[0] == UInt(b[0]); }
    }
  }

  // ---- inline tables -------------------------------------------------------------

  lemma SetSingle(t: Table, k: string, v: Value)
    ensures SetNested(t, [k], v) == if HasKey(t, k) then Err(DuplicateKey) else Ok(t + [Entry(k, v)])
  {
    assert [k][..0] == [];
  }

  lemma FieldsText(ft: FloatText, o: Table, rest: string)
    requires o != [] && !o[0].value.Null?
    ensures Fields(ft, o, true) + rest ==
      KeyRepr(o[0].key) + (" = " + (Inline(ft, o[0].value) + (Fields(ft, o[1..], false) + rest)))
  {
    var k, v, more := KeyRepr(o[0].key), Inline(ft, o[0].value), Fields(ft, o[1..], false);
    var line := k + (" = " + v);
    assert Fields(ft, o, true) == line + more by {
      assert "" + (line + more) == line + more;
    }
    Assoc(line, more, rest);
    Assoc(k, " = " + v, more + rest);
    Assoc(" = ", v, more + rest);
  }

  lemma {:induction false} FieldsAfterFirst(ft: FloatText, o: Table)
    ensures AllNull(o) ==> Fields(ft, o, true) == [] && Fields(ft, o, false) == []
    ensures !AllNull(o) ==> Fields(ft, o, false) == ", " + Fields(ft, o, true)
  {
    if o != [] {
      FieldsAfterFirst(ft, o[1..]);
      if o[0].value.Null? {
        assert AllNull(o) <==> AllNull(o[1..]) by {
          assert forall i :: 1 <= i < |o| ==> o[i] == o[1..][i - 1];
        }
      } else {
        var line := FieldText(ft, o[0]) + Fields(ft, o[1..], false);
        assert "" + line == line;
      }
    }
  }

  /** Keys stay distinct while the entries move one by one into the table read so far. */
  lemma FreshStep(o: Table, acc: Table, v: Value)
    requires o != []
    ensures o[0].value.Null? ==>
      (DistinctKeys(o) && Fresh(o, acc) <==> DistinctKeys(o[1..]) && Fresh(o[1..], acc))
    ensures !o[0].value.Null? ==>
      (DistinctKeys(o) && Fresh(o, acc) <==>
        !HasKey(acc, o[0].key) && DistinctKeys(o[1..]) && Fresh(o[1..], acc + [Entry(o[0].key, v)]))
  {
    var k := o[0].key;
    var acc' := acc + [Entry(k, v)];
    forall x
      ensures HasKey(acc', x) <==> HasKey(acc, x) || x == k
    {
      assert acc'[|acc|].key == k;
      if HasKey(acc, x) {
        var i :| 0 <= i < |acc| && acc[i].key == x;
        assert acc'[i].key == x;
      }
    }
    assert forall i :: 0 <= i < |o[1..]| ==> o[1..][i] == o[i + 1];
    assert forall i :: 1 <= i < |o| ==> o[i] == o[1..][i - 1];
  }

  /** The key and the equals sign before a value. */
  lemma AssignmentParses(k: string, t: string)
    requires t != [] && !IsInlineSpace(t[0])
    ensures KeyPath(KeyRepr(k) + (" = " + t), []) == Ok(([k], "= " + t))
    ensures SkipInline("= " + t) == "= " + t && Expect("= " + t, '=') == Ok(" " + t) && SkipInline(" " + t) == t
  {
    KeyParses(k, t);
    EqualsSign(t);
  }

  lemma SkipNothing(s: string)
    requires s != [] && !IsInlineSpace(s[0])
    ensures SkipInline(s) == s
  {}

  lemma SkipOneSpace(t: string)
    requires t != [] && !IsInlineSpace(t[0])
    ensures SkipInline(" " + t) == t
  {
    Parts(" ", t);
    SkipNothing(t);
  }

  lemma EqualsSign(t: string)
    requires t != [] && !IsInlineSpace(t[0])
    ensures SkipInline("= " + t) == "= " + t && Expect("= " + t, '=') == Ok(" " + t) && SkipInline(" " + t) == t
  {
    SkipNothing("= " + t);
    SkipOneSpace(t);
    assert ("= " + t)[0] == '=' && ("= " + t)[1..] == " " + t;
  }

  /** `key = value` inside an inline table, up to the separator after it. */
  lemma FieldStep(ft: FloatText, k: string, v: Value, depth: nat, pad: string, tail: string, acc: Table)
    requires Inverse(ft) && ParsesBack(ft, v, depth + 1)
    requires pad == "" || pad == " "
    requires Terminated(tail) && SkipBlank(tail) != [] && SkipBlank(tail)[0] in {',', '}'}
    ensures
      var r := FieldLoop(ft, pad + (KeyRepr(k) + (" = " + (Inline(ft, v) + tail))), depth, acc);
      if HasKey(acc, k) || !Readable(v, depth + 1) then r.Err?
      else
        var acc' := acc + [Entry(k, Canon(v))];
        var x := SkipBlank(tail);
        r == if x[0] == ',' then FieldLoop(ft, x[1..], depth, acc') else Ok((Object(acc'), x[1..]))
  {
    var t := Inline(ft, v) + tail;
    InlineStart(ft, v);
    SkipBlankPad(pad, KeyRepr(k) + (" = " + t)) by { KeySegmentParses(k, " = " + t); }
    AssignmentParses(k, t);
    assert Outcome(ParseValue(ft, t, depth + 1), Readable(v, depth + 1), Canon(v), tail);
    SetSingle(acc, k, Canon(v));
  }

  /** The text between one field and the next. */
  lemma FieldsTail(ft: FloatText, o: Table, rest: string)
    ensures AllNull(o) ==> Fields(ft, o, false) + (" }" + rest) == " }" + rest && SkipBlank(" }" + rest) == "}" + rest
    ensures !AllNull(o) ==>
      Fields(ft, o, false) + (" }" + rest) == "," + (" " + (Fields(ft, o, true) + (" }" + rest)))
  {
    FieldsAfterFirst(ft, o);
    if AllNull(o) {
      assert "" + (" }" + rest) == " }" + rest;
      assert (" }" + rest)[1..] == "}" + rest;
      assert SkipBlank("}" + rest) == "}" + rest;
    } else {
      Assoc(", ", Fields(ft, o, true), " }" + rest);
      assert ", " == "," + " ";
      Assoc(",", " ", Fields(ft, o, true) + (" }" + rest));
    }
  }

  lemma FieldsReadableStep(o: Table, depth: nat)
    requires o != []
    ensures FieldsReadable(o, depth) <==>
      (o[0].value.Null? || Readable(o[0].value, depth)) && FieldsReadable(o[1..], depth)
  {
    assert forall i :: 1 <= i < |o| ==> o[i] == o[1..][i - 1];
    assert forall i :: 0 <= i < |o[1..]| ==> o[1..][i] == o[i + 1];
  }

  ghost predicate FieldsOutcome(r: Parsed<Value>, o: Table, depth: nat, acc: Table, rest: string) {
    Outcome(r, DistinctKeys(o) && Fresh(o, acc) && FieldsReadable(o, depth), Object(acc + CanonFields(o)), rest)
  }

  /** One non-null field of a table and the separator after it. */
  lemma FieldsStep(ft: FloatText, o: Table, depth: nat, pad: string, acc: Table, rest: string)
    requires Inverse(ft) && o != [] && !o[0].value.Null? && ParsesBack(ft, o[0].value, depth + 1)
    requires pad == "" || pad == " "
    ensures
      var r := FieldLoop(ft, pad + (Fields(ft, o, true) + (" }" + rest)), depth, acc);
      var acc' := acc + [Entry(o[0].key, Canon(o[0].value))];
      if HasKey(acc, o[0].key) || !Readable(o[0].value, depth + 1) then r.Err?
      else if AllNull(o[1..]) then r == Ok((Object(acc'), rest))
      else r == FieldLoop(ft, " " + (Fields(ft, o[1..], true) + (" }" + rest)), depth, acc')
  {
    var more := o[1..];
    var tail := Fields(ft, more, false) + (" }" + rest);
    FieldsText(ft, o, " }" + rest);
    FieldsTail(ft, more, rest);
    if AllNull(more) {
      Parts("}", rest);
    } else {
      Parts(",", " " + (Fields(ft, more, true) + (" }" + rest)));
      assert SkipBlank(tail) == tail;
    }
    FieldStep(ft, o[0].key, o[0].value, depth, pad, tail, acc);
  }

  lemma {:induction false} FieldsParse(ft: FloatText, o: Table, depth: nat, pad: string, acc: Table, rest: string)
    requires Inverse(ft) && !AllNull(o)
    requires forall i :: 0 <= i < |o| ==> ParsesBack(ft, o[i].value, depth + 1)
    requires pad == "" || pad == " "
    ensures FieldsOutcome(FieldLoop(ft, pad + (Fields(ft, o, true) + (" }" + rest)), depth, acc), o, depth + 1, acc,
                          rest)
    decreases |o|
  {
    var v, more := o[0].value, o[1..];
    FreshStep(o, acc, Canon(v));
    FieldsReadableStep(o, depth + 1);
    if v.Null? {
      FieldsParse(ft, more, depth, pad, acc, rest);
    } else {
      FieldsStep(ft, o, depth, pad, acc, rest);
      var e := Entry(o[0].key, Canon(v));
      Assoc(acc, [e], CanonFields(more));
      if AllNull(more) {
        AllNullFields(more, acc + [e]);
        assert CanonFields(o) == [e];
      } else {
        FieldsParse(ft, more, depth, " ", acc + [e], rest);
      }
    }
  }

  lemma {:induction false} AllNullFields(o: Table, taken: Table)
    requires AllNull(o)
    ensures CanonFields(o) == [] && DistinctKeys(o) && Fresh(o, taken)
    ensures forall depth: nat :: FieldsReadable(o, depth)
  {
    if o != [] { AllNullFields(o[1..], taken); }
  }

  lemma ObjectText(ft: FloatText, o: Table, rest: string)
    requires !AllNull(o)
    ensures Inline(ft, Object(o)) + rest == "{" + (" " + (Fields(ft, o, true) + (" }" + rest)))
  {
    var f := Fields(ft, o, true);
    Assoc("{ " + f, " }", rest);
    Assoc("{ ", f, " }" + rest);
    assert "{ " == "{" + " ";
    Assoc("{", " ", f + (" }" + rest));
  }

  lemma EmptyObjectParses(ft: FloatText, o: Table, depth: nat, rest: string)
    requires AllNull(o) && depth <= MAX_DEPTH
    ensures Outcome(ParseValue(ft, Inline(ft, Object(o)) + rest, depth), Readable(Object(o), depth), Canon(Object(o)),
                    rest)
  {
    var s := "{}" + rest;
    assert s[1..] == "}" + rest;
    Parts("}", rest);
    assert SkipInline(s) == s && SkipBlank("}" + rest) == "}" + rest;
    AllNullFields(o, []);
    assert FieldsReadable(o, depth + 1);
    assert Readable(Object(o), depth);
  }

  lemma ObjectParses(ft: FloatText, o: Table, depth: nat, rest: string)
    requires Inverse(ft) && depth <= MAX_DEPTH && !AllNull(o)
    requires forall i :: 0 <= i < |o| ==> ParsesBack(ft, o[i].value, depth + 1)
    ensures Outcome(ParseValue(ft, Inline(ft, Object(o)) + rest, depth), Readable(Object(o), depth), Canon(Object(o)),
                    rest)
  {
    var t := Fields(ft, o, true) + (" }" + rest);
    ObjectText(ft, o, rest);
    FieldsStart(ft, o);
    OpenBrace(ft, t, depth);
    FieldsParse(ft, o, depth, "", [], rest);
    assert "" + t == t && [] + CanonFields(o) == CanonFields(o);
  }

  lemma OpenBrace(ft: FloatText, t: string, depth: nat)
    requires t != [] && !IsBlank(t[0]) && t[0] != '}' && depth <= MAX_DEPTH
    ensures ParseValue(ft, "{" + (" " + t), depth) == FieldLoop(ft, t, depth, [])
  {
    var s := "{" + (" " + t);
    assert s[0] == '{' && s[1..] == " " + t by { Parts("{", " " + t); }
    assert SkipInline(s) == s;
    assert SkipBlank(" " + t) == t by { SkipBlankPad(" ", t); }
  }

  lemma {:induction false} FieldsStart(ft: FloatText, o: Table)
    requires !AllNull(o)
    ensures Fields(ft, o, true) != [] && !IsBlank(Fields(ft, o, true)[0]) && Fields(ft, o, true)[0] != '}'
  {
    if o[0].value.Null? {
      FieldsStart(ft, o[1..]);
    } else {
      FieldsText(ft, o, []);
      KeySegmentParses(o[0].key, []);
      assert Fields(ft, o, true) == Fields(ft, o, true) + [];
    }
  }

  // ---- every value -----------------------------------------------------------------

  /** Reading back what `write_inline` wrote gives the canonical value and leaves the rest, or
      fails when the value is nested too deep or repeats a key. */
  lemma {:induction false} InlineParses(ft: FloatText, v: Value, depth: nat)
    requires Inverse(ft)
    ensures ParsesBack(ft, v, depth)
    decreases v
  {
    if v.Array? {
      forall i | 0 <= i < |v.items| ensures ParsesBack(ft, v.items[i], depth + 1) {
        InlineParses(ft, v.items[i], depth + 1);
      }
    } else if v.Object? {
      forall i | 0 <= i < |v.entries| ensures ParsesBack(ft, v.entries[i].value, depth + 1) {
        InlineParses(ft, v.entries[i].value, depth + 1);
      }
    } else if !v.Bytes? {
      ScalarParses(ft, v, depth);
    }
    forall rest | Terminated(rest)
      ensures Outcome(ParseValue(ft, Inline(ft, v) + rest, depth), Readable(v, depth), Canon(v), rest)
    {
      if depth <= MAX_DEPTH {
        match v {
          case Bytes(b) => BytesParse(ft, b, depth, rest);
          case Array(a) => ArrayParses(ft, a, depth, rest);
          case Object(o) =>
            if AllNull(o) { EmptyObjectParses(ft, o, depth, rest); } else { ObjectParses(ft, o, depth, rest); }
          case _ =>
        }
      }
    }
  }
}
