/** The laws of the TOML codec, for every value and every document. */
module TomlTheorems {
  import opened Wrappers
  import opened Seqs
  import opened Decimal
  import opened Values
  import opened TomlTree
  import opened TomlParse
  import opened TomlEncode
  import opened TomlLexical
  import opened TomlInline
  import opened TomlRoundTrip
  import opened TomlUnique

  type Table = seq<Entry>

  /** What a document reads back as. */
  function CanonDocument(v: Value): Value {
    if v.Object? then Object(CanonTable(v.entries)) else Object([Entry("value", Canon(v))])
  }

  /** No written keys clash, and no inline value nests too deep or repeats a key. */
  predicate Acceptable(v: Value) {
    if v.Object? then Separate(v.entries) && TableReadable(v.entries) else Readable(v, 0)
  }

  // ---- which keys and entries the canonical table has --------------------------

  function CanonEntry(e: Entry): Entry
    requires !e.value.Null?
  {
    Entry(e.key, if IsSection(e.value) then CanonSection(e.value) else Canon(e.value))
  }

  /** The written entries of a table, each in canonical form, in the original order. */
  function Written(t: Table): Table {
    if t == [] then []
    else (if t[0].value.Null? then [] else [CanonEntry(t[0])]) + Written(t[1..])
  }

  /** Reordering aside, the canonical table is the written entries: none is lost, merged or invented. */
  lemma {:induction false} CanonTableIsPermutation(t: Table)
    ensures multiset(CanonTable(t)) == multiset(Written(t))
  {
    if t != [] {
      CanonTableIsPermutation(t[1..]);
      CanonTableStep(t);
    }
  }

  lemma CanonTableStep(t: Table)
    requires t != []
    ensures t[0].value.Null? ==> CanonTable(t) == CanonTable(t[1..])
    ensures IsLine(t[0].value) ==> CanonTable(t) == [CanonEntry(t[0])] + CanonTable(t[1..])
    ensures IsSection(t[0].value) ==>
      CanonTable(t) == CanonLines(t[1..]) + ([CanonEntry(t[0])] + CanonSections(t[1..]))
  {
    var l, s := CanonLines(t[1..]), CanonSections(t[1..]);
    assert [] + l == l && [] + s == s;
    if IsLine(t[0].value) { Assoc([CanonEntry(t[0])], l, s); }
  }

  lemma {:induction false} CanonKeys(t: Table, k: string)
    ensures HasKey(CanonTable(t), k) <==> exists i :: 0 <= i < |t| && !t[i].value.Null? && t[i].key == k
  {
    if t != [] {
      CanonKeys(t[1..], k);
      CanonTableStep(t);
      assert forall j :: 1 <= j < |t| ==> t[j] == t[1..][j - 1];
      assert forall j :: 0 <= j < |t[1..]| ==> t[1..][j] == t[j + 1];
      if !t[0].value.Null? {
        var e := CanonEntry(t[0]);
        assert e.key == t[0].key;
        if IsSection(t[0].value) {
          InsertedKey(CanonLines(t[1..]), e, CanonSections(t[1..]), k);
        } else {
          InsertedKey([], e, CanonTable(t[1..]), k);
          assert [] + ([e] + CanonTable(t[1..])) == CanonTable(t);
          assert [] + CanonTable(t[1..]) == CanonTable(t[1..]);
        }
      }
    }
  }

  lemma InsertedKey(a: Table, e: Entry, b: Table, k: string)
    ensures HasKey(a + ([e] + b), k) <==> e.key == k || HasKey(a + b, k)
  {
    var t := a + ([e] + b);
    assert forall i :: 0 <= i < |a| ==> t[i] == a[i] == (a + b)[i];
    assert t[|a|] == e;
    assert forall i :: 0 <= i < |b| ==> t[|a| + 1 + i] == b[i] == (a + b)[|a| + i];
    if HasKey(a + b, k) {
      var i :| 0 <= i < |a + b| && (a + b)[i].key == k;
      assert t[if i < |a| then i else i + 1].key == k;
    }
  }

  lemma InsertedUnique(a: Table, e: Entry, b: Table)
    requires UniqueKeys(a + ([e] + b))
    ensures UniqueKeys(a + b) && !HasKey(a + b, e.key)
  {
    var t := a + ([e] + b);
    var u := a + b;
    assert forall i :: 0 <= i < |u| ==> u[i] == t[if i < |a| then i else i + 1];
    assert t[|a|] == e;
  }

  // ---- clashing keys show in the canonical form ------------------------------------

  lemma {:induction false} UniqueIsDistinct(t: Table)
    requires UniqueKeys(CanonTable(t))
    ensures DistinctKeys(t)
  {
    if t != [] {
      CanonTableStep(t);
      var more := t[1..];
      assert forall j :: 1 <= j < |t| ==> t[j] == more[j - 1];
      if t[0].value.Null? {
        UniqueIsDistinct(more);
      } else {
        var e := CanonEntry(t[0]);
        if IsSection(t[0].value) {
          InsertedUnique(CanonLines(more), e, CanonSections(more));
        } else {
          assert [] + ([e] + CanonTable(more)) == CanonTable(t);
          assert [] + CanonTable(more) == CanonTable(more);
          InsertedUnique([], e, CanonTable(more));
        }
        UniqueIsDistinct(more);
        CanonKeys(more, e.key);
      }
    }
  }

  lemma {:induction false} SectionInCanon(t: Table, i: nat)
    requires i < |t| && IsSection(t[i].value)
    ensures exists j :: 0 <= j < |CanonTable(t)| && CanonTable(t)[j].value == CanonSection(t[i].value)
  {
    var c := CanonSections(t);
    if i == 0 {
      assert c[0] == CanonEntry(t[0]);
      assert CanonTable(t)[|CanonLines(t)|] == c[0];
    } else {
      SectionInCanon(t[1..], i - 1);
      SectionOfTail(t[1..], CanonSection(t[i].value));
      var j :| 0 <= j < |CanonSections(t[1..])| && CanonSections(t[1..])[j].value == CanonSection(t[i].value);
      var j' := j + |c| - |CanonSections(t[1..])|;
      assert c[j'] == CanonSections(t[1..])[j];
      assert CanonTable(t)[|CanonLines(t)| + j'] == c[j'];
    }
  }

  /** The canonical form of a section shows up among the sections. */
  lemma {:induction false} SectionOfTail(t: Table, v: Value)
    requires exists i :: 0 <= i < |t| && IsSection(t[i].value) && CanonSection(t[i].value) == v
    ensures exists j :: 0 <= j < |CanonSections(t)| && CanonSections(t)[j].value == v
  {
    var i :| 0 <= i < |t| && IsSection(t[i].value) && CanonSection(t[i].value) == v;
    var c := CanonSections(t);
    if i == 0 {
      assert c[0].value == v;
    } else {
      assert t[1..][i - 1] == t[i];
      SectionOfTail(t[1..], v);
      var j :| 0 <= j < |CanonSections(t[1..])| && CanonSections(t[1..])[j].value == v;
      assert c[j + |c| - |CanonSections(t[1..])|].value == v;
    }
  }

  /** If the canonical form has no duplicate keys, neither has the table it came from. */
  lemma {:induction false} UniqueIsSeparate(t: Table)
    requires UniqueTable(CanonTable(t))
    ensures Separate(t)
    decreases t, 1
  {
    UniqueIsDistinct(t);
    forall i | 0 <= i < |t| && IsSection(t[i].value)
      ensures SeparateSection(t[i].value)
    {
      SectionInCanon(t, i);
      assert Unique(CanonSection(t[i].value));
      UniqueIsSeparateSection(t[i].value);
    }
  }

  lemma {:induction false} UniqueIsSeparateSection(v: Value)
    requires IsSection(v) && Unique(CanonSection(v))
    ensures SeparateSection(v)
    decreases v, 0
  {
    match v {
      case Object(o) => UniqueIsSeparate(o);
      case Array(a) =>
        forall i | 0 <= i < |a| ensures Separate(a[i].entries) {
          ElementInCanon(a, i);
          assert Unique(CanonElements(a)[i]);
          UniqueIsSeparate(a[i].entries);
        }
    }
  }

  lemma {:induction false} ElementInCanon(a: seq<Value>, i: nat)
    requires i < |a| && forall j :: 0 <= j < |a| ==> a[j].Object?
    ensures |CanonElements(a)| == |a| && CanonElements(a)[i] == Object(CanonTable(a[i].entries))
  {
    if |a| > 1 { ElementInCanon(a[1..], if i == 0 then 0 else i - 1); }
  }

  // ---- the round trip ------------------------------------------------------------------

  lemma TableDocument(ft: FloatText, t: Table)
    requires Inverse(ft) && Separate(t)
    ensures var r := FromStr(ft, Encode(ft, Object(t)));
      if TableReadable(t) then r == Ok(Object(CanonTable(t))) else r.Err?
  {
    var cur := TableParses(ft, t, [], [], "");
    assert TableText(ft, t, "") + "" == TableText(ft, t, "");
    assert Dotted([]) == "";
    assert SkipBlank("") == "";
    assert Put([], [], CanonTable(t)) == CanonTable(t);
  }

  lemma WrappedText(ft: FloatText, v: Value)
    requires !v.Object?
    ensures Encode(ft, v) == FieldText(ft, Entry("value", v)) + ("\n" + "")
  {
    var text := Inline(ft, v);
    assert IsBareKey("value");
    Assoc("value", " = ", text);
    assert "value" + " = " == "value = ";
    assert "\n" + "" == "\n";
  }

  lemma ScalarDocument(ft: FloatText, v: Value)
    requires Inverse(ft) && !v.Object?
    ensures var r := FromStr(ft, Encode(ft, v));
      if Readable(v, 0) then r == Ok(CanonDocument(v)) else r.Err?
  {
    var e := Entry("value", v);
    WrappedText(ft, v);
    LineStatement(ft, e, [], [], [], "");
    assert [] + [Entry("value", Canon(v))] == [Entry("value", Canon(v))];
    assert SkipBlank("") == "";
  }

  /** Decoding an encoded value gives its canonical form exactly when the value is acceptable. */
  lemma RoundTrip(ft: FloatText, v: Value)
    requires Inverse(ft)
    ensures FromStr(ft, Encode(ft, v)) == Ok(CanonDocument(v)) <==> Acceptable(v)
  {
    if !v.Object? {
      ScalarDocument(ft, v);
    } else if Separate(v.entries) {
      TableDocument(ft, v.entries);
    } else if FromStr(ft, Encode(ft, v)) == Ok(CanonDocument(v)) {
      AcceptedIsUnique(ft, Encode(ft, v));
      UniqueIsSeparate(v.entries);
      assert false;
    }
  }

  // ---- values that come back unchanged ---------------------------------------------------

  /** An inline value in canonical form already. */
  predicate Plain(v: Value) {
    match v
    case Null => false
    case UInt(u) => u > I64_MAX
    case Bytes(_) => false
    case Array(a) => forall i :: 0 <= i < |a| ==> Plain(a[i])
    case Object(o) => forall i :: 0 <= i < |o| ==> Plain(o[i].value)
    case _ => true
  }

  /** A table in canonical form already: no nulls, plain inline entries, sections last. */
  predicate PlainTable(t: Table)
    decreases t, 1
  {
    && (forall i, j :: 0 <= i < j < |t| && IsSection(t[i].value) ==> IsSection(t[j].value))
    && (forall i :: 0 <= i < |t| ==> PlainEntry(t[i].value))
  }

  predicate PlainEntry(v: Value)
    decreases v, 0
  {
    if !IsSection(v) then Plain(v)
    else match v
      case Object(o) => PlainTable(o)
      case Array(a) => forall i :: 0 <= i < |a| ==> PlainTable(a[i].entries)
  }

  lemma {:induction false} PlainIsFixed(v: Value)
    ensures Canon(v) == v <==> Plain(v)
    decreases v
  {
    match v {
      case Array(a) =>
        forall i | 0 <= i < |a| ensures Canon(a[i]) == a[i] <==> Plain(a[i]) { PlainIsFixed(a[i]); }
        assert CanonItems(a) == a <==> forall i :: 0 <= i < |a| ==> Canon(a[i]) == a[i];
      case Object(o) =>
        forall i | 0 <= i < |o|
          ensures Canon(o[i].value) == o[i].value <==> Plain(o[i].value)
        {
          PlainIsFixed(o[i].value);
        }
        FieldsFixed(o);
      case _ =>
    }
  }

  lemma {:induction false} FieldsFixed(o: Table)
    requires forall i :: 0 <= i < |o| ==> (Canon(o[i].value) == o[i].value <==> Plain(o[i].value))
    ensures |CanonFields(o)| <= |o|
    ensures CanonFields(o) == o <==> forall i :: 0 <= i < |o| ==> Plain(o[i].value)
  {
    if o != [] {
      var more := o[1..];
      assert forall i :: 0 <= i < |more| ==> more[i] == o[i + 1];
      assert forall i :: 1 <= i < |o| ==> o[i] == more[i - 1];
      FieldsFixed(more);
      if o[0].value.Null? {
        assert |CanonFields(o)| < |o|;
        assert !Plain(o[0].value);
      } else {
        var e := Entry(o[0].key, Canon(o[0].value));
        assert CanonFields(o) == [e] + CanonFields(more);
        assert o == [o[0]] + more;
        assert CanonFields(o) == o <==> e == o[0] && CanonFields(more) == more by {
          if CanonFields(o) == o { assert CanonFields(o)[0] == e && CanonFields(o)[1..] == CanonFields(more); }
        }
      }
    }
  }

  /** A line stays a line: no inline value becomes a section by being read back. */
  lemma CanonOfLine(v: Value)
    requires IsLine(v)
    ensures IsLine(Canon(v))
  {
    match v {
      case Bytes(b) => BytesStayLine(b);
      case Array(a) => ArrayStaysLine(a);
      case _ =>
    }
  }

  lemma {:induction false} BytesStayLine(b: seq<u8>)
    ensures !IsSection(Array(CanonBytes(b)))
  {
    if b != [] { assert CanonBytes(b)[0].Int?; }
  }

  lemma {:induction false} ArrayStaysLine(a: seq<Value>)
    requires !IsSection(Array(a))
    ensures !IsSection(Array(CanonItems(a)))
  {
    if a != [] {
      var i :| 0 <= i < |a| && !a[i].Object?;
      assert !CanonItems(a)[i].Object?;
    }
  }

  lemma {:induction false} CanonShape(t: Table)
    ensures |CanonLines(t)| + |CanonSections(t)| <= |t|
    ensures |CanonSections(t)| == |t| <==> forall i :: 0 <= i < |t| ==> IsSection(t[i].value)
    ensures CanonLines(t) != [] ==> IsLine(CanonLines(t)[0].value)
  {
    if t != [] {
      CanonShape(t[1..]);
      assert forall i :: 1 <= i < |t| ==> t[i] == t[1..][i - 1];
      if IsLine(t[0].value) { CanonOfLine(t[0].value); }
    }
  }

  lemma PlainTableStep(t: Table)
    requires t != []
    ensures PlainTable(t) <==>
      && PlainEntry(t[0].value) && PlainTable(t[1..])
      && (IsSection(t[0].value) ==> forall i :: 1 <= i < |t| ==> IsSection(t[i].value))
  {
    var more := t[1..];
    assert forall i :: 0 <= i < |more| ==> more[i] == t[i + 1];
    assert forall i :: 1 <= i < |t| ==> t[i] == more[i - 1];
  }

  lemma EqualInParts(a: Entry, s: Table, b: Entry, t: Table)
    ensures [a] + s == [b] + t <==> a == b && s == t
  {
    if [a] + s == [b] + t {
      assert ([a] + s)[0] == a && ([b] + t)[0] == b;
      assert ([a] + s)[1..] == s && ([b] + t)[1..] == t;
    }
  }

  /** A table reads back as itself exactly when it is in canonical form. */
  lemma {:induction false} PlainTableIsFixed(t: Table)
    ensures CanonTable(t) == t <==> PlainTable(t)
    decreases t, 1
  {
    if t != [] {
      var more := t[1..];
      assert t == [t[0]] + more;
      CanonTableStep(t);
      CanonShape(more);
      PlainTableStep(t);
      PlainTableIsFixed(more);
      if t[0].value.Null? {
      } else {
        PlainEntryIsFixed(t[0].value);
        var e := CanonEntry(t[0]);
        if IsSection(t[0].value) {
          SectionFirst(t, e);
        } else {
          EqualInParts(e, CanonTable(more), t[0], more);
        }
      }
    }
  }

  lemma SectionFirst(t: Table, e: Entry)
    requires t != [] && IsSection(t[0].value) && e == CanonEntry(t[0])
    ensures CanonLines(t[1..]) + ([e] + CanonSections(t[1..])) == t <==>
      e == t[0] && CanonTable(t[1..]) == t[1..] && forall i :: 1 <= i < |t| ==> IsSection(t[i].value)
  {
    var more := t[1..];
    var l, s := CanonLines(more), CanonSections(more);
    assert t == [t[0]] + more;
    assert forall i :: 1 <= i < |t| ==> t[i] == more[i - 1];
    assert forall i :: 0 <= i < |more| ==> more[i] == t[i + 1];
    CanonShape(more);
    if l == [] {
      assert l + ([e] + s) == [e] + s && l + s == s;
      EqualInParts(e, s, t[0], more);
    } else {
      assert (l + ([e] + s))[0] == l[0];
      assert l + ([e] + s) != t;
      assert |s| < |more|;
    }
  }

  lemma {:induction false} PlainEntryIsFixed(v: Value)
    requires !v.Null?
    ensures (if IsSection(v) then CanonSection(v) else Canon(v)) == v <==> PlainEntry(v)
    decreases v, 0
  {
    if !IsSection(v) {
      PlainIsFixed(v);
    } else {
      match v {
        case Object(o) => PlainTableIsFixed(o);
        case Array(a) =>
          forall i | 0 <= i < |a| ensures CanonTable(a[i].entries) == a[i].entries <==> PlainTable(a[i].entries) {
            PlainTableIsFixed(a[i].entries);
          }
          forall i | 0 <= i < |a|
            ensures |CanonElements(a)| == |a| && CanonElements(a)[i] == Object(CanonTable(a[i].entries))
          {
            ElementInCanon(a, i);
          }
          assert CanonElements(a) == a <==> forall i :: 0 <= i < |a| ==> CanonElements(a)[i] == a[i];
      }
    }
  }

  lemma {:induction false} UniqueTableIsSeparate(t: Table)
    requires UniqueTable(t)
    ensures Separate(t)
    decreases t, 1
  {
    forall i | 0 <= i < |t| && IsSection(t[i].value)
      ensures SeparateSection(t[i].value)
    {
      match t[i].value {
        case Object(o) => UniqueTableIsSeparate(o);
        case Array(a) =>
          forall j | 0 <= j < |a| ensures Separate(a[j].entries) {
            assert Unique(a[j]);
            UniqueTableIsSeparate(a[j].entries);
          }
      }
    }
  }

  /** A value survives encoding and decoding unchanged exactly when it is an acceptable
      document already in canonical form. */
  lemma ExactRoundTrip(ft: FloatText, v: Value)
    requires Inverse(ft)
    ensures FromStr(ft, Encode(ft, v)) == Ok(v) <==> v.Object? && PlainTable(v.entries) && Acceptable(v)
  {
    RoundTrip(ft, v);
    AcceptedIsUnique(ft, Encode(ft, v));
    if v.Object? {
      PlainTableIsFixed(v.entries);
      if FromStr(ft, Encode(ft, v)) == Ok(v) {
        UniqueTableIsSeparate(v.entries);
        TableDocument(ft, v.entries);
      }
    }
  }
}
