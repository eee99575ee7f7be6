/** Documents: the encoder's `[section]` and `[[section]]` blocks, replayed by the parser into a
    tree, give back the encoded table in canonical order. */
module TomlRoundTrip {
  import opened Wrappers
  import opened Seqs
  import opened Values
  import opened TomlTree
  import opened TomlParse
  import opened TomlEncode
  import opened TomlLexical
  import opened TomlInline

  type Table = seq<Entry>

  /** What a table reads back as: its inline entries in order, then its sections in order;
      null entries are gone. */
  function CanonTable(t: Table): Table
    decreases t, 1
  {
    CanonLines(t) + CanonSections(t)
  }

  function CanonLines(t: Table): Table {
    if t == [] then []
    else (if IsLine(t[0].value) then [Entry(t[0].key, Canon(t[0].value))] else []) + CanonLines(t[1..])
  }

  function CanonSections(t: Table): Table
    decreases t, 0
  {
    if t == [] then []
    else (if IsSection(t[0].value) then [Entry(t[0].key, CanonSection(t[0].value))] else []) + CanonSections(t[1..])
  }

  function CanonSection(v: Value): Value
    requires IsSection(v)
    decreases v, 0
  {
    match v
    case Object(o) => Object(CanonTable(o))
    case Array(a) => Array(CanonElements(a))
  }

  function CanonElements(a: seq<Value>): seq<Value>
    requires forall i :: 0 <= i < |a| ==> a[i].Object?
    decreases a, 0
  {
    if a == [] then [] else [Object(CanonTable(a[0].entries))] + CanonElements(a[1..])
  }

  /** Written as a `key = value` line. */
  predicate IsLine(v: Value) { !v.Null? && !IsSection(v) }

  /** Within each table that becomes a section, no two written entries share a key. */
  predicate Separate(t: Table)
    decreases t, 1
  {
    DistinctKeys(t) && forall i :: 0 <= i < |t| && IsSection(t[i].value) ==> SeparateSection(t[i].value)
  }

  predicate SeparateSection(v: Value)
    requires IsSection(v)
    decreases v, 0
  {
    match v
    case Object(o) => Separate(o)
    case Array(a) => forall i :: 0 <= i < |a| ==> Separate(a[i].entries)
  }

  /** Every inline value of a table and of its sections is accepted by the inline grammar. */
  predicate TableReadable(t: Table)
    decreases t, 1
  {
    && LinesReadable(t)
    && forall i :: 0 <= i < |t| && IsSection(t[i].value) ==> SectionReadable(t[i].value)
  }

  predicate LinesReadable(t: Table) {
    forall i :: 0 <= i < |t| && IsLine(t[i].value) ==> Readable(t[i].value, 0)
  }

  predicate SectionReadable(v: Value)
    requires IsSection(v)
    decreases v, 0
  {
    match v
    case Object(o) => TableReadable(o)
    case Array(a) => forall i :: 0 <= i < |a| ==> TableReadable(a[i].entries)
  }

  /** The rest of a document is read from `after`, or nothing is accepted. */
  ghost predicate Continues(ft: FloatText, r: Result<Value, ParseError>, ok: bool, rest: string, after: State) {
    if ok then r == Document(ft, rest, after) else r.Err?
  }

  /** The document after a header: its table becomes current, or the header is rejected. */
  function AfterHeader(ft: FloatText, r: Result<Table, ParseError>, path: Path,
                       rest: string): Result<Value, ParseError> {
    var root :- r;
    Document(ft, rest, State(root, path))
  }

  // ---- single statements -------------------------------------------------------

  lemma NewlineEnds(s: string)
    ensures FinishLine("\n" + s) == Ok(s)
  {
    Parts("\n", s);
    assert SkipInline("\n" + s) == "\n" + s;
  }

  lemma StatementStarts(ft: FloatText, s: string, st: State)
    requires s != [] && !IsBlank(s[0])
    ensures SkipBlank(s) == s && SkipBlank("\n" + s) == s
    ensures Document(ft, "\n" + s, st) == Document(ft, s, st)
  {
    Parts("\n", s);
  }

  lemma LineText(ft: FloatText, e: Entry, rest: string)
    ensures FieldText(ft, e) + rest == KeyRepr(e.key) + (" = " + (Inline(ft, e.value) + rest))
    ensures !IsBlank((FieldText(ft, e) + rest)[0]) && (FieldText(ft, e) + rest)[0] != '['
  {
    Assoc(KeyRepr(e.key), " = " + Inline(ft, e.value), rest);
    Assoc(" = ", Inline(ft, e.value), rest);
    KeySegmentParses(e.key, []);
  }

  lemma ValueThenNewline(ft: FloatText, v: Value, rest: string)
    requires Inverse(ft)
    ensures Inline(ft, v) != [] && !IsInlineSpace((Inline(ft, v) + ("\n" + rest))[0])
    ensures Outcome(ParseValue(ft, Inline(ft, v) + ("\n" + rest), 0), Readable(v, 0), Canon(v), "\n" + rest)
  {
    InlineStart(ft, v);
    InlineParses(ft, v, 0);
    assert Terminated("\n" + rest);
  }

  lemma AssignmentReads(ft: FloatText, e: Entry, root: Table, path: Path, base: Table, rest: string)
    requires Inverse(ft) && Resolve(root, path) == Ok(base) && !HasKey(base, e.key)
    ensures Outcome(Assignment(ft, FieldText(ft, e) + ("\n" + rest), State(root, path)), Readable(e.value, 0),
                    State(Put(root, path, base + [Entry(e.key, Canon(e.value))]), path), rest)
  {
    LineText(ft, e, "\n" + rest);
    ValueThenNewline(ft, e.value, rest);
    AssignmentParses(e.key, Inline(ft, e.value) + ("\n" + rest));
    SetSingle(base, e.key, Canon(e.value));
    NewlineEnds(rest);
  }

  /** A `key = value` line adds one entry to the current table. */
  lemma LineStatement(ft: FloatText, e: Entry, root: Table, path: Path, base: Table, rest: string)
    requires Inverse(ft) && Resolve(root, path) == Ok(base) && !HasKey(base, e.key)
    ensures Continues(ft, Document(ft, FieldText(ft, e) + ("\n" + rest), State(root, path)), Readable(e.value, 0),
                      rest, State(Put(root, path, base + [Entry(e.key, Canon(e.value))]), path))
  {
    LineText(ft, e, "\n" + rest);
    StatementStarts(ft, FieldText(ft, e) + ("\n" + rest), State(root, path));
    AssignmentReads(ft, e, root, path, base, rest);
  }

  lemma BracketCloses(rest: string)
    ensures Expect("]" + rest, ']') == Ok(rest)
  {
    Parts("]", rest);
    assert SkipInline("]" + rest) == "]" + rest;
  }

  lemma HeaderText(h: string, rest: string)
    ensures "\n[" + h + "]\n" + rest == "\n" + ("[" + (h + ("]" + ("\n" + rest))))
  {
    Assoc("\n[" + h, "]\n", rest);
    assert "]\n" == "]" + "\n";
    Assoc("]", "\n", rest);
    Assoc("\n[", h, "]" + ("\n" + rest));
    assert "\n[" == "\n" + "[";
    Assoc("\n", "[", h + ("]" + ("\n" + rest)));
  }

  lemma TableHeaderReads(path: Path, st: State, rest: string)
    requires path != []
    ensures TableHeader(Dotted(path) + ("]" + ("\n" + rest)), st) ==
      HeaderResult(GetOrCreate(st.root, path), path, rest)
  {
    HeaderParses(path, "\n" + rest);
    BracketCloses("\n" + rest);
    NewlineEnds(rest);
  }

  function HeaderResult(r: Result<Table, ParseError>, path: Path, rest: string): Parsed<State> {
    var root :- r;
    Ok((State(root, path), rest))
  }

  /** A `[path]` header creates the table and makes it current. */
  lemma HeaderStatement(ft: FloatText, path: Path, st: State, rest: string)
    requires path != []
    ensures Document(ft, "\n[" + Dotted(path) + "]\n" + rest, st) ==
            AfterHeader(ft, GetOrCreate(st.root, path), path, rest)
  {
    var h := Dotted(path);
    var t := h + ("]" + ("\n" + rest));
    var s := "[" + t;
    HeaderText(h, rest);
    StatementStarts(ft, s, st);
    Parts("[", t);
    assert s[1] == t[0] == KeyRepr(path[0])[0];
    KeySegmentParses(path[0], []);
    TableHeaderReads(path, st, rest);
  }

  lemma ElementHeaderText(h: string, rest: string)
    ensures "\n[[" + h + "]]\n" + rest == "\n" + ("[[" + (h + ("]" + ("]" + ("\n" + rest)))))
  {
    var close := "]" + ("]" + ("\n" + rest));
    Assoc("\n[[" + h, "]]\n", rest);
    assert "]]\n" == "]" + ("]" + "\n");
    Assoc("]", "]" + "\n", rest);
    Assoc("]", "\n", rest);
    Assoc("\n[[", h, close);
    assert "\n[[" == "\n" + "[[";
    Assoc("\n", "[[", h + close);
  }

  lemma ElementHeaderReads(path: Path, st: State, rest: string)
    requires path != []
    ensures ElementHeader(Dotted(path) + ("]" + ("]" + ("\n" + rest))), st) ==
      HeaderResult(AppendArrayTable(st.root, path), path, rest)
  {
    HeaderParses(path, "]" + ("\n" + rest));
    BracketCloses("]" + ("\n" + rest));
    BracketCloses("\n" + rest);
    NewlineEnds(rest);
  }

  /** A `[[path]]` header appends an empty table and makes it current. */
  lemma ElementStatement(ft: FloatText, path: Path, st: State, rest: string)
    requires path != []
    ensures Document(ft, "\n[[" + Dotted(path) + "]]\n" + rest, st) ==
            AfterHeader(ft, AppendArrayTable(st.root, path), path, rest)
  {
    var h := Dotted(path);
    var t := h + ("]" + ("]" + ("\n" + rest)));
    ElementHeaderText(h, rest);
    StatementStarts(ft, "[[" + t, st);
    Parts("[[", t);
    ElementHeaderReads(path, st, rest);
  }

  // ---- tables ------------------------------------------------------------------------

  /** The first pass over a table: its lines land in the current table, in order. */
  lemma {:induction false} LinesParse(ft: FloatText, t: Table, root: Table, path: Path, base: Table, rest: string)
    requires Inverse(ft) && Resolve(root, path) == Ok(base)
    requires DistinctKeys(t) && Fresh(t, base)
    ensures Continues(ft, Document(ft, Lines(ft, t) + rest, State(root, path)), LinesReadable(t),
                      rest, State(Put(root, path, base + CanonLines(t)), path))
    decreases |t|
  {
    if t == [] {
      assert "" + rest == rest;
      PutSame(root, path);
      assert base + [] == base;
    } else {
      var e, more := t[0], t[1..];
      LinesReadableStep(t);
      FreshStep(t, base, Canon(e.value));
      if IsLine(e.value) {
        var e' := Entry(e.key, Canon(e.value));
        var root' := Put(root, path, base + [e']);
        LineStatement(ft, e, root, path, base, Lines(ft, more) + rest);
        Assoc(FieldText(ft, e) + "\n", Lines(ft, more), rest);
        Assoc(FieldText(ft, e), "\n", Lines(ft, more) + rest);
        PutResolve(root, path, base + [e']);
        LinesParse(ft, more, root', path, base + [e'], rest);
        PutPut(root, path, base + [e'], base + [e'] + CanonLines(more));
        Assoc(base, [e'], CanonLines(more));
      } else {
        assert Fresh(more, base);
        assert [] + CanonLines(more) == CanonLines(more);
        LinesParse(ft, more, root, path, base, rest);
      }
    }
  }

  lemma LinesReadableStep(t: Table)
    requires t != []
    ensures LinesReadable(t) <==> (IsLine(t[0].value) ==> Readable(t[0].value, 0)) && LinesReadable(t[1..])
  {
    assert forall i :: 1 <= i < |t| ==> t[i] == t[1..][i - 1];
    assert forall i :: 0 <= i < |t[1..]| ==> t[1..][i] == t[i + 1];
  }

  /** None of the sections of `t` has a key of `taken`. */
  predicate FreshSections(t: Table, taken: Table) {
    forall i :: 0 <= i < |t| && IsSection(t[i].value) ==> !HasKey(taken, t[i].key)
  }

  predicate SectionsReadable(t: Table) {
    forall i :: 0 <= i < |t| && IsSection(t[i].value) ==> SectionReadable(t[i].value)
  }

  /** A new key at the end of a table, seen from the root. */
  lemma GrowAt(root: Table, path: Path, base: Table, k: string, v: Value, u: Table)
    requires Resolve(root, path).Ok? && !HasKey(base, k) && Descend(v).Ok?
    ensures
      var root' := Put(root, path, base + [Entry(k, v)]);
      && Resolve(root', path + [k]) == Descend(v)
      && Put(root', path + [k], u) == Put(root, path, base + [Entry(k, Rebuild(v, u))])
  {
    var base' := base + [Entry(k, v)];
    var root' := Put(root, path, base');
    PutResolve(root, path, base');
    LastEntry(base, k, v, u);
    PathCompose(root', path, [k]);
    PutPut(root, path, base', base + [Entry(k, Rebuild(v, u))]);
  }

  lemma CreateAt(root: Table, path: Path, base: Table, k: string)
    requires Resolve(root, path) == Ok(base) && !HasKey(base, k)
    ensures GetOrCreate(root, path + [k]) == Ok(Put(root, path, base + [Entry(k, Object([]))]))
  {
    PathCompose(root, path, [k]);
    assert [k][1..] == [];
    assert GetOrCreate(base, [k]) == Ok(base + [Entry(k, Object([]))]);
  }

  /** The array of tables under a key with the elements read so far. */
  function WithElements(base: Table, k: string, done: seq<Value>): Table {
    if done == [] then base else base + [Entry(k, Array(done))]
  }

  lemma AppendAt(root: Table, path: Path, base: Table, k: string, done: seq<Value>)
    requires Resolve(root, path) == Ok(WithElements(base, k, done)) && !HasKey(base, k)
    ensures AppendArrayTable(root, path + [k]) == Ok(Put(root, path, base + [Entry(k, Array(done + [Object([])]))]))
  {
    assert (path + [k])[..|path|] == path;
    PutSame(root, path);
    if done == [] {
      assert done + [Object([])] == [Object([])];
    } else {
      var e := Entry(k, Array(done));
      assert [e][0].key == k;
      PositionAppend(base, [e], k);
      var t := WithElements(base, k, done);
      assert t[|base| := Entry(k, Array(done + [Object([])]))] == base + [Entry(k, Array(done + [Object([])]))];
    }
  }

  /** A table and everything below it: from an empty table at `path`, the parser ends up with
      the canonical table there. */
  lemma {:induction false} TableParses(ft: FloatText, t: Table, root: Table, path: Path, rest: string)
    returns (cur: Path)
    requires Inverse(ft) && Separate(t) && Resolve(root, path) == Ok([])
    ensures Continues(ft, Document(ft, TableText(ft, t, Dotted(path)) + rest, State(root, path)), TableReadable(t),
                      rest, State(Put(root, path, CanonTable(t)), cur))
    decreases t, 1
  {
    var lines := CanonLines(t);
    var more := Sections(ft, t, Dotted(path)) + rest;
    Assoc(Lines(ft, t), Sections(ft, t, Dotted(path)), rest);
    LinesParse(ft, t, root, path, [], more);
    assert [] + lines == lines;
    var root' := Put(root, path, lines);
    PutResolve(root, path, lines);
    SectionsStayFresh(t);
    cur := SectionsParse(ft, t, root', path, lines, path, rest);
    PutPut(root, path, lines, CanonTable(t));
    assert TableReadable(t) <==> LinesReadable(t) && SectionsReadable(t);
  }

  lemma {:induction false} SectionsParse(ft: FloatText, t: Table, root: Table, path: Path, base: Table, cur0: Path,
                                         rest: string)
    returns (cur: Path)
    requires Inverse(ft) && Separate(t) && Resolve(root, path) == Ok(base) && FreshSections(t, base)
    ensures Continues(ft, Document(ft, Sections(ft, t, Dotted(path)) + rest, State(root, cur0)), SectionsReadable(t),
                      rest, State(Put(root, path, base + CanonSections(t)), cur))
    decreases t, 0
  {
    if t == [] {
      assert "" + rest == rest;
      PutSame(root, path);
      assert base + [] == base;
      cur := cur0;
    } else {
      var k, v, more := t[0].key, t[0].value, t[1..];
      SeparateStep(t, base);
      SectionsReadableStep(t);
      var next := Sections(ft, more, Dotted(path)) + rest;
      HeaderExtends(path, k);
      Assoc(SectionText(ft, v, Dotted(path + [k])), Sections(ft, more, Dotted(path)), rest);
      if IsSection(v) {
        var e := Entry(k, CanonSection(v));
        var cur1 := SectionParses(ft, v, k, root, path, base, cur0, next);
        PutResolve(root, path, base + [e]);
        cur := SectionsParse(ft, more, Put(root, path, base + [e]), path, base + [e], cur1, rest);
        PutPut(root, path, base + [e], base + [e] + CanonSections(more));
        Assoc(base, [e], CanonSections(more));
      } else {
        assert "" + next == next;
        cur := SectionsParse(ft, more, root, path, base, cur0, rest);
        assert [] + CanonSections(more) == CanonSections(more);
      }
    }
  }

  lemma {:induction false} SectionParses(ft: FloatText, v: Value, k: string, root: Table, path: Path, base: Table,
                                         cur0: Path, rest: string)
    returns (cur: Path)
    requires Inverse(ft) && IsSection(v) && SeparateSection(v)
    requires Resolve(root, path) == Ok(base) && !HasKey(base, k)
    ensures Continues(ft, Document(ft, SectionText(ft, v, Dotted(path + [k])) + rest, State(root, cur0)),
                      SectionReadable(v),
                      rest, State(Put(root, path, base + [Entry(k, CanonSection(v))]), cur))
    decreases v, 0
  {
    match v {
      case Object(o) =>
        var h := Dotted(path + [k]);
        var body := TableText(ft, o, h);
        Assoc("\n[" + h + "]\n", body, rest);
        HeaderStatement(ft, path + [k], State(root, cur0), body + rest);
        CreateAt(root, path, base, k);
        GrowAt(root, path, base, k, Object([]), CanonTable(o));
        cur := TableParses(ft, o, Put(root, path, base + [Entry(k, Object([]))]), path + [k], rest);
      case Array(a) =>
        cur := ElementsParse(ft, a, [], k, root, path, base, cur0, rest);
        assert [] + CanonElements(a) == CanonElements(a);
    }
  }

  lemma {:induction false} ElementsParse(ft: FloatText, a: seq<Value>, done: seq<Value>, k: string, root: Table,
                                         path: Path, base: Table, cur0: Path, rest: string)
    returns (cur: Path)
    requires Inverse(ft) && a + done != []
    requires forall i :: 0 <= i < |a| ==> a[i].Object? && Separate(a[i].entries)
    requires Resolve(root, path) == Ok(WithElements(base, k, done)) && !HasKey(base, k)
    ensures Continues(ft, Document(ft, ElementTexts(ft, a, Dotted(path + [k])) + rest, State(root, cur0)),
                      forall i :: 0 <= i < |a| ==> TableReadable(a[i].entries),
                      rest, State(Put(root, path, base + [Entry(k, Array(done + CanonElements(a)))]), cur))
    decreases a, 0
  {
    if a == [] {
      assert "" + rest == rest;
      PutSame(root, path);
      assert done + [] == done;
      cur := cur0;
    } else {
      var h := Dotted(path + [k]);
      var o := a[0].entries;
      var done' := done + [Object(CanonTable(o))];
      ElementSplits(ft, a, h, rest);
      var cur1 := ElementParses(ft, o, done, k, root, path, base, cur0, ElementTexts(ft, a[1..], h) + rest);
      PutResolve(root, path, WithElements(base, k, done'));
      cur := ElementsParse(ft, a[1..], done', k, Put(root, path, WithElements(base, k, done')), path, base, cur1, rest);
      PutPut(root, path, WithElements(base, k, done'), base + [Entry(k, Array(done' + CanonElements(a[1..])))]);
      Assoc(done, [Object(CanonTable(o))], CanonElements(a[1..]));
    }
  }

  /** One array element: its header appends a table, its body is read into it. */
  lemma {:induction false} ElementParses(ft: FloatText, o: Table, done: seq<Value>, k: string, root: Table, path: Path,
                                         base: Table, cur0: Path, rest: string)
    returns (cur: Path)
    requires Inverse(ft) && Separate(o)
    requires Resolve(root, path) == Ok(WithElements(base, k, done)) && !HasKey(base, k)
    ensures Continues(ft,
                      Document(ft, "\n[[" + Dotted(path + [k]) + "]]\n" + (TableText(ft, o, Dotted(path + [k])) + rest),
                                   State(root, cur0)),
                      TableReadable(o),
                      rest, State(Put(root, path, base + [Entry(k, Array(done + [Object(CanonTable(o))]))]), cur))
    decreases o, 2
  {
    ElementStatement(ft, path + [k], State(root, cur0), TableText(ft, o, Dotted(path + [k])) + rest);
    var root' := ElementGrows(root, path, base, k, done, CanonTable(o));
    cur := TableParses(ft, o, root', path + [k], rest);
  }

  /** The tree with the new element, which takes its table as the last of the array. */
  lemma ElementGrows(root: Table, path: Path, base: Table, k: string, done: seq<Value>, t: Table)
    returns (root': Table)
    requires Resolve(root, path) == Ok(WithElements(base, k, done)) && !HasKey(base, k)
    ensures AppendArrayTable(root, path + [k]) == Ok(root') && Resolve(root', path + [k]) == Ok([])
    ensures Put(root', path + [k], t) == Put(root, path, base + [Entry(k, Array(done + [Object(t)]))])
  {
    var v := Array(done + [Object([])]);
    AppendAt(root, path, base, k, done);
    LastRebuilt(done, t);
    GrowAt(root, path, base, k, v, t);
    root' := Put(root, path, base + [Entry(k, v)]);
  }

  lemma LastRebuilt(done: seq<Value>, t: Table)
    ensures Descend(Array(done + [Object([])])) == Ok([])
    ensures Rebuild(Array(done + [Object([])]), t) == Array(done + [Object(t)])
  {
    Parts(done, [Object([])]);
  }

  lemma ElementSplits(ft: FloatText, a: seq<Value>, h: string, rest: string)
    requires a != [] && forall i :: 0 <= i < |a| ==> a[i].Object?
    ensures ElementTexts(ft, a, h) + rest ==
      "\n[[" + h + "]]\n" + (TableText(ft, a[0].entries, h) + (ElementTexts(ft, a[1..], h) + rest))
  {
    var header, body, more := "\n[[" + h + "]]\n", TableText(ft, a[0].entries, h), ElementTexts(ft, a[1..], h);
    Assoc(header + body, more, rest);
    Assoc(header, body, more + rest);
  }

  /** Lines never take the key of a section of the same table. */
  lemma {:induction false} SectionsStayFresh(t: Table)
    requires DistinctKeys(t)
    ensures FreshSections(t, CanonLines(t))
  {
    forall i | 0 <= i < |t| && IsSection(t[i].value)
      ensures !HasKey(CanonLines(t), t[i].key)
    {
      LineKeys(t, t[i].key);
    }
  }

  lemma {:induction false} LineKeys(t: Table, k: string)
    ensures HasKey(CanonLines(t), k) <==> exists j :: 0 <= j < |t| && IsLine(t[j].value) && t[j].key == k
  {
    if t != [] {
      LineKeys(t[1..], k);
      var head := if IsLine(t[0].value) then [Entry(t[0].key, Canon(t[0].value))] else [];
      PositionAppend(head, CanonLines(t[1..]), k);
      assert forall j :: 1 <= j < |t| ==> t[j] == t[1..][j - 1];
      assert forall j :: 0 <= j < |t[1..]| ==> t[1..][j] == t[j + 1];
      if IsLine(t[0].value) { assert HasKey(head, k) <==> t[0].key == k by { assert head[0].key == t[0].key; } }
    }
  }

  lemma SeparateStep(t: Table, base: Table)
    requires t != [] && Separate(t) && FreshSections(t, base)
    ensures Separate(t[1..]) && FreshSections(t[1..], base)
    ensures IsSection(t[0].value) ==>
      SeparateSection(t[0].value) && !HasKey(base, t[0].key) &&
      FreshSections(t[1..], base + [Entry(t[0].key, CanonSection(t[0].value))])
  {
    var more := t[1..];
    assert forall i :: 0 <= i < |more| ==> more[i] == t[i + 1];
    if IsSection(t[0].value) {
      var e := Entry(t[0].key, CanonSection(t[0].value));
      forall i | 0 <= i < |more| && IsSection(more[i].value)
        ensures !HasKey(base + [e], more[i].key)
      {
        assert t[i + 1].key != t[0].key;
        assert !HasKey(base, t[i + 1].key);
      }
    }
  }

  lemma SectionsReadableStep(t: Table)
    requires t != []
    ensures SectionsReadable(t) <==> (IsSection(t[0].value) ==> SectionReadable(t[0].value)) && SectionsReadable(t[1..])
  {
    assert forall i :: 1 <= i < |t| ==> t[i] == t[1..][i - 1];
    assert forall i :: 0 <= i < |t[1..]| ==> t[1..][i] == t[i + 1];
  }
}
