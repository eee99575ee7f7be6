/** Every document the TOML parser accepts is a tree without duplicate keys, and the table that
    lines are added to can always be found. */
module TomlUnique {
  import opened Wrappers
  import opened Values
  import opened TomlTree
  import opened TomlParse

  type Table = seq<Entry>

  predicate UniqueKeys(t: Table) {
    forall i, j :: 0 <= i < j < |t| ==> t[i].key != t[j].key
  }

  /** No table inside the value, at any depth, has two entries with one key. */
  predicate Unique(v: Value) {
    match v
    case Array(a) => forall i :: 0 <= i < |a| ==> Unique(a[i])
    case Object(o) => UniqueTable(o)
    case _ => true
  }

  predicate UniqueTable(t: Table) {
    UniqueKeys(t) && forall i :: 0 <= i < |t| ==> Unique(t[i].value)
  }

  // ---- the tree helpers keep keys unique -----------------------------------------

  lemma AppendUnique(t: Table, k: string, v: Value)
    requires UniqueTable(t) && !HasKey(t, k) && Unique(v)
    ensures UniqueTable(t + [Entry(k, v)])
  {}

  lemma UpdateUnique(t: Table, i: nat, v: Value)
    requires i < |t| && UniqueTable(t) && Unique(v)
    ensures UniqueTable(t[i := Entry(t[i].key, v)])
  {}

  lemma DescendUnique(v: Value)
    requires Unique(v) && Descend(v).Ok?
    ensures UniqueTable(Descend(v).value)
  {
    if v.Array? {
      assert Unique(v.items[|v.items| - 1]);
    }
  }

  lemma RebuildUnique(v: Value, t: Table)
    requires Unique(v) && Descend(v).Ok? && UniqueTable(t)
    ensures Unique(Rebuild(v, t))
  {
    if v.Array? {
      var a := v.items;
      var a' := a[..|a| - 1] + [Object(t)];
      assert forall i :: 0 <= i < |a| - 1 ==> a'[i] == a[i];
      assert Unique(Object(t));
    }
  }

  lemma {:induction false} ResolveUnique(t: Table, path: Path)
    requires UniqueTable(t) && Resolve(t, path).Ok?
    ensures UniqueTable(Resolve(t, path).value)
    decreases path
  {
    if path != [] {
      var i := Position(t, path[0]).value;
      DescendUnique(t[i].value);
      ResolveUnique(Descend(t[i].value).value, path[1..]);
    }
  }

  lemma {:induction false} PutUnique(t: Table, path: Path, u: Table)
    requires UniqueTable(t) && Resolve(t, path).Ok? && UniqueTable(u)
    ensures UniqueTable(Put(t, path, u))
    decreases path
  {
    if path != [] {
      var i := Position(t, path[0]).value;
      DescendUnique(t[i].value);
      var sub := Descend(t[i].value).value;
      PutUnique(sub, path[1..], u);
      RebuildUnique(t[i].value, Put(sub, path[1..], u));
      UpdateUnique(t, i, Rebuild(t[i].value, Put(sub, path[1..], u)));
    }
  }

  lemma {:induction false} GetOrCreateUnique(t: Table, path: Path)
    requires UniqueTable(t)
    ensures GetOrCreate(t, path).Ok? ==> UniqueTable(GetOrCreate(t, path).value)
    ensures GetOrCreate(t, path) != Err(NoSuchTable)
    decreases path
  {
    if path != [] {
      match Position(t, path[0]) {
        case None =>
          GetOrCreateUnique([], path[1..]);
          if GetOrCreate(t, path).Ok? {
            AppendUnique(t, path[0], Object(GetOrCreate([], path[1..]).value));
          }
        case Some(i) =>
          if Descend(t[i].value).Ok? {
            DescendUnique(t[i].value);
            var sub := Descend(t[i].value).value;
            GetOrCreateUnique(sub, path[1..]);
            if GetOrCreate(t, path).Ok? {
              RebuildUnique(t[i].value, GetOrCreate(sub, path[1..]).value);
              UpdateUnique(t, i, Rebuild(t[i].value, GetOrCreate(sub, path[1..]).value));
            }
          }
      }
    }
  }

  lemma SetNestedUnique(t: Table, path: Path, v: Value)
    requires UniqueTable(t) && Unique(v)
    ensures SetNested(t, path, v).Ok? ==> UniqueTable(SetNested(t, path, v).value)
    ensures SetNested(t, path, v) != Err(NoSuchTable)
  {
    if path != [] {
      var parents, last := path[..|path| - 1], path[|path| - 1];
      GetOrCreateUnique(t, parents);
      if GetOrCreate(t, parents).Ok? {
        var t' := GetOrCreate(t, parents).value;
        CreatedResolves(t, parents);
        var base := Resolve(t', parents).value;
        ResolveUnique(t', parents);
        if !HasKey(base, last) {
          AppendUnique(base, last, v);
          PutUnique(t', parents, base + [Entry(last, v)]);
        }
      }
    }
  }

  lemma AppendArrayTableUnique(root: Table, path: Path)
    requires UniqueTable(root)
    ensures AppendArrayTable(root, path).Ok? ==> UniqueTable(AppendArrayTable(root, path).value)
    ensures AppendArrayTable(root, path) != Err(NoSuchTable)
  {
    if path != [] {
      var parents, last := path[..|path| - 1], path[|path| - 1];
      GetOrCreateUnique(root, parents);
      if GetOrCreate(root, parents).Ok? {
        var root' := GetOrCreate(root, parents).value;
        CreatedResolves(root, parents);
        ResolveUnique(root', parents);
        var base := Resolve(root', parents).value;
        AppendElementUnique(base, last);
        if AppendElement(base, last).Ok? { PutUnique(root', parents, AppendElement(base, last).value); }
      }
    }
  }

  lemma AppendElementUnique(t: Table, k: string)
    requires UniqueTable(t)
    ensures AppendElement(t, k).Ok? ==> UniqueTable(AppendElement(t, k).value)
    ensures AppendElement(t, k) != Err(NoSuchTable)
  {
    assert Unique(Object([]));
    match Position(t, k) {
      case None => AppendUnique(t, k, Array([Object([])]));
      case Some(i) =>
        if t[i].value.Array? {
          assert Unique(t[i].value);
          UpdateUnique(t, i, Array(t[i].value.items + [Object([])]));
        }
    }
  }

  lemma AppendElementResolves(t: Table, k: string)
    requires AppendElement(t, k).Ok?
    ensures Resolve(AppendElement(t, k).value, [k]) == Ok([])
  {
    var t' := AppendElement(t, k).value;
    match Position(t, k) {
      case None =>
        PositionOfLast(t, k, Array([Object([])]));
        SingleStep(t', k, |t|, []);
      case Some(i) =>
        PositionUpdate(t, i, t'[i].value, k);
        SingleStep(t', k, i, []);
    }
  }

  /** A `[[path]]` header leaves a path that resolves, to the table just appended. */
  lemma AppendedResolves(root: Table, path: Path)
    requires AppendArrayTable(root, path).Ok?
    ensures Resolve(AppendArrayTable(root, path).value, path) == Ok([])
  {
    var parents, last := path[..|path| - 1], path[|path| - 1];
    assert path == parents + [last];
    var root' := GetOrCreate(root, parents).value;
    CreatedResolves(root, parents);
    var base := Resolve(root', parents).value;
    AppendElementResolves(base, last);
    var base' := AppendElement(base, last).value;
    PutResolve(root', parents, base');
    PathCompose(Put(root', parents, base'), parents, [last]);
  }

  // ---- the inline grammar ----------------------------------------------------------

  ghost predicate GoodValue(r: Parsed<Value>) {
    if r.Ok? then Unique(r.value.0) else r.error != NoSuchTable
  }

  lemma {:induction false} ValueUnique(ft: FloatText, s: string, depth: nat)
    ensures GoodValue(ParseValue(ft, s, depth))
    decreases |s|, 0
  {
    var t := SkipInline(s);
    if depth <= MAX_DEPTH && t != [] {
      if t[0] == '[' {
        ArrayUnique(ft, t[1..], depth, []);
      } else if t[0] == '{' {
        FieldsUnique(ft, SkipBlank(t[1..]), depth, []);
      } else if t[0] != '\"' && t[0] != '\'' {
        AtomUnique(ft, t);
      }
    }
  }

  lemma AtomUnique(ft: FloatText, s: string)
    ensures GoodValue(ParseAtom(ft, s))
  {}

  lemma {:induction false} ArrayUnique(ft: FloatText, s: string, depth: nat, items: seq<Value>)
    requires forall i :: 0 <= i < |items| ==> Unique(items[i])
    ensures GoodValue(ArrayLoop(ft, s, depth, items))
    decreases |s|, 1
  {
    var t := SkipBlank(s);
    if t == [] || t[0] != ']' {
      ValueUnique(ft, t, depth + 1);
      if ParseValue(ft, t, depth + 1).Ok? {
        var (v, u) := ParseValue(ft, t, depth + 1).value;
        var w := SkipBlank(u);
        if w != [] && w[0] == ',' {
          ArrayUnique(ft, w[1..], depth, items + [v]);
        }
      }
    }
  }

  lemma {:induction false} FieldsUnique(ft: FloatText, s: string, depth: nat, entries: Table)
    requires UniqueTable(entries)
    ensures GoodValue(FieldLoop(ft, s, depth, entries))
    decreases |s|, 1
  {
    var key := KeyPath(SkipBlank(s), []);
    if key.Ok? && Expect(key.value.1, '=').Ok? {
      var t := SkipInline(Expect(key.value.1, '=').value);
      ValueUnique(ft, t, depth + 1);
      var r := ParseValue(ft, t, depth + 1);
      if r.Ok? {
        SetNestedUnique(entries, key.value.0, r.value.0);
        var e := SetNested(entries, key.value.0, r.value.0);
        var x := SkipBlank(r.value.1);
        if e.Ok? && x != [] && x[0] == ',' {
          FieldsUnique(ft, x[1..], depth, e.value);
        }
      }
    }
  }

  // ---- documents ---------------------------------------------------------------------

  /** The parser's state: a tree with unique keys in which the current path leads to a table. */
  ghost predicate Sound(st: State) {
    UniqueTable(st.root) && Resolve(st.root, st.current).Ok?
  }

  ghost predicate KeepsSound(r: Parsed<State>) {
    if r.Ok? then Sound(r.value.0) else r.error != NoSuchTable
  }

  lemma ElementHeaderSound(s: string, st: State)
    requires Sound(st)
    ensures KeepsSound(ElementHeader(s, st))
  {
    var key := KeyPath(s, []);
    if key.Ok? {
      AppendKeepsSound(st.root, key.value.0);
    }
  }

  lemma AppendKeepsSound(root: Table, path: Path)
    requires UniqueTable(root)
    ensures var r := AppendArrayTable(root, path); if r.Ok? then Sound(State(r.value, path)) else r.error != NoSuchTable
  {
    AppendArrayTableUnique(root, path);
    if AppendArrayTable(root, path).Ok? { AppendedResolves(root, path); }
  }

  lemma TableHeaderSound(s: string, st: State)
    requires Sound(st)
    ensures KeepsSound(TableHeader(s, st))
  {
    var key := KeyPath(s, []);
    if key.Ok? {
      var path := key.value.0;
      GetOrCreateUnique(st.root, path);
      if GetOrCreate(st.root, path).Ok? { CreatedResolves(st.root, path); }
    }
  }

  lemma AssignmentSound(ft: FloatText, s: string, st: State)
    requires Sound(st)
    ensures KeepsSound(Assignment(ft, s, st))
  {
    var key := KeyPath(s, []);
    if key.Ok? && Expect(SkipInline(key.value.1), '=').Ok? {
      var t := SkipInline(Expect(SkipInline(key.value.1), '=').value);
      ValueUnique(ft, t, 0);
      var r := ParseValue(ft, t, 0);
      if r.Ok? { AssignKeepsSound(st, key.value.0, r.value.0); }
    }
  }

  lemma AssignKeepsSound(st: State, path: Path, v: Value)
    requires Sound(st) && Unique(v)
    ensures var b := SetNested(Resolve(st.root, st.current).value, path, v);
            if b.Ok? then Sound(State(Put(st.root, st.current, b.value), st.current)) else b.error != NoSuchTable
  {
    var base := Resolve(st.root, st.current).value;
    ResolveUnique(st.root, st.current);
    SetNestedUnique(base, path, v);
    var b := SetNested(base, path, v);
    if b.Ok? {
      PutUnique(st.root, st.current, b.value);
      PutResolve(st.root, st.current, b.value);
    }
  }

  /** Every statement keeps the state sound, and is never rejected for a missing table. */
  lemma StatementSound(ft: FloatText, s: string, st: State)
    requires s != [] && Sound(st)
    ensures KeepsSound(Statement(ft, s, st))
  {
    if s[0] == '[' && |s| > 1 && s[1] == '[' {
      ElementHeaderSound(s[2..], st);
    } else if s[0] == '[' {
      TableHeaderSound(s[1..], st);
    } else {
      AssignmentSound(ft, s, st);
    }
  }

  lemma {:induction false} DocumentSound(ft: FloatText, s: string, st: State)
    requires Sound(st)
    ensures Document(ft, s, st).Ok? ==> Unique(Document(ft, s, st).value)
    ensures Document(ft, s, st) != Err(NoSuchTable)
    decreases |s|
  {
    var t := SkipBlank(s);
    if t != [] {
      StatementSound(ft, t, st);
      var r := Statement(ft, t, st);
      if r.Ok? { DocumentSound(ft, r.value.1, r.value.0); }
    }
  }

  /** An accepted document has no duplicate key at any depth, and no document is rejected
      because the current table went missing. */
  lemma AcceptedIsUnique(ft: FloatText, s: string)
    ensures FromStr(ft, s).Ok? ==> FromStr(ft, s).value.Object? && Unique(FromStr(ft, s).value)
    ensures FromStr(ft, s) != Err(NoSuchTable)
  {
    DocumentSound(ft, s, State([], []));
    DocumentIsObject(ft, s, State([], []));
  }

  lemma {:induction false} DocumentIsObject(ft: FloatText, s: string, st: State)
    ensures Document(ft, s, st).Ok? ==> Document(ft, s, st).value.Object?
    decreases |s|
  {
    var t := SkipBlank(s);
    if t != [] {
      var r := Statement(ft, t, st);
      if r.Ok? { DocumentIsObject(ft, r.value.1, r.value.0); }
    }
  }
}
