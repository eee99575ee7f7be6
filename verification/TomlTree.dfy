/** The document tree the TOML parser builds (the tree helpers of `codec/toml.rs`). A helper
    that changes a nested table in place is a function from the old root to the new one. */
module TomlTree {
  import opened Wrappers
  import opened Values

  type Table = seq<Entry>
  type Path = seq<string>

  datatype ParseError =
    | NestingTooDeep
    | MultiLineString
    | ExpectedValue
    | ExpectedSeparator
    | ExpectedKey
    | ExpectedChar(c: char)
    | TrailingInput
    | UnterminatedString
    | BadEscape
    | NoSuchTable
    | NotATable
    | NotAnArrayOfTables
    | DuplicateKey
    | EmptyPath

  function Position(t: Table, k: string): (r: Option<nat>)
    ensures r.Some? ==> r.value < |t| && t[r.value].key == k
    ensures r.None? <==> !HasKey(t, k)
  {
    if t == [] then None
    else if t[0].key == k then Some(0)
    else
      var i := Position(t[1..], k);
      assert i.None? ==> forall j :: 0 <= j < |t| ==> j == 0 || t[j] == t[1..][j - 1];
      assert i.Some? ==> t[i.value + 1] == t[1..][i.value];
      if i.None? then None else Some(i.value + 1)
  }

  predicate HasKey(t: Table, k: string) {
    exists i :: 0 <= i < |t| && t[i].key == k
  }

  /** The table a value refers to: the object itself, or the last element of an array of tables. */
  function Descend(v: Value): Result<Table, ParseError> {
    match v
    case Object(o) => Ok(o)
    case Array(a) => if a != [] && a[|a| - 1].Object? then Ok(a[|a| - 1].entries) else Err(NotATable)
    case _ => Err(NotATable)
  }

  /** The value with the table it refers to replaced. */
  function Rebuild(v: Value, t: Table): (w: Value)
    requires Descend(v).Ok?
    ensures Descend(w) == Ok(t)
  {
    match v
    case Object(_) => Object(t)
    case Array(a) => Array(a[..|a| - 1] + [Object(t)])
  }

  /** `resolve` */
  function Resolve(t: Table, path: Path): Result<Table, ParseError> {
    if path == [] then Ok(t)
    else
      match Position(t, path[0])
      case None => Err(NoSuchTable)
      case Some(i) =>
        var sub :- Descend(t[i].value);
        Resolve(sub, path[1..])
  }

  /** The root with the table at `path` replaced by `u`. */
  function Put(t: Table, path: Path, u: Table): Table
    requires Resolve(t, path).Ok?
    decreases path
  {
    if path == [] then u
    else
      var i := Position(t, path[0]).value;
      var sub := Descend(t[i].value).value;
      t[i := Entry(path[0], Rebuild(t[i].value, Put(sub, path[1..], u)))]
  }

  /** `get_or_create`, as the new root. */
  function GetOrCreate(t: Table, path: Path): Result<Table, ParseError>
    decreases path
  {
    if path == [] then Ok(t)
    else
      match Position(t, path[0])
      case None =>
        var sub :- GetOrCreate([], path[1..]);
        Ok(t + [Entry(path[0], Object(sub))])
      case Some(i) =>
        var found :- Descend(t[i].value);
        var sub :- GetOrCreate(found, path[1..]);
        Ok(t[i := Entry(path[0], Rebuild(t[i].value, sub))])
  }

  /** A table with an empty table appended to the array under `k`. */
  function AppendElement(t: Table, k: string): Result<Table, ParseError> {
    match Position(t, k)
    case None => Ok(t + [Entry(k, Array([Object([])]))])
    case Some(i) =>
      if t[i].value.Array? then Ok(t[i := Entry(k, Array(t[i].value.items + [Object([])]))])
      else Err(NotAnArrayOfTables)
  }

  /** `append_array_table`: a `[[path]]` header. */
  function AppendArrayTable(root: Table, path: Path): Result<Table, ParseError> {
    if path == [] then Err(EmptyPath)
    else
      var parents, last := path[..|path| - 1], path[|path| - 1];
      var root1 :- GetOrCreate(root, parents);
      var base :- Resolve(root1, parents);
      var base' :- AppendElement(base, last);
      Ok(Put(root1, parents, base'))
  }

  /** `set_nested` */
  function SetNested(base: Table, path: Path, v: Value): Result<Table, ParseError> {
    if path == [] then Err(EmptyPath)
    else
      var parents, last := path[..|path| - 1], path[|path| - 1];
      var base1 :- GetOrCreate(base, parents);
      var t :- Resolve(base1, parents);
      if HasKey(t, last) then Err(DuplicateKey)
      else Ok(Put(base1, parents, t + [Entry(last, v)]))
  }

  // ---- laws of the tree ----------------------------------------------------

  /** Entries up to the first with the key are unaffected by what follows or by new values. */
  lemma {:induction false} PositionAppend(t: Table, u: Table, k: string)
    ensures HasKey(t, k) ==> Position(t + u, k) == Position(t, k)
    ensures !HasKey(t, k) ==>
      Position(t + u, k) == if HasKey(u, k) then Some(|t| + Position(u, k).value) else None
  {
    if t == [] {
      assert t + u == u;
    } else {
      assert (t + u)[1..] == t[1..] + u;
      PositionAppend(t[1..], u, k);
      if HasKey(t[1..], k) {
        var i :| 0 <= i < |t[1..]| && t[1..][i].key == k;
        assert t[i + 1].key == k;
      }
      assert t[0].key == k ==> HasKey(t, k);
      assert HasKey(t, k) ==> t[0].key == k || HasKey(t[1..], k) by {
        if HasKey(t, k) && t[0].key != k {
          var i :| 0 <= i < |t| && t[i].key == k;
          assert t[1..][i - 1].key == k;
        }
      }
    }
  }

  lemma {:induction false} PositionOfLast(t: Table, k: string, v: Value)
    requires !HasKey(t, k)
    ensures Position(t + [Entry(k, v)], k) == Some(|t|)
  {
    var t' := t + [Entry(k, v)];
    if t != [] {
      assert t'[1..] == t[1..] + [Entry(k, v)];
      assert t[0].key != k && forall i :: 0 <= i < |t[1..]| ==> t[1..][i] == t[i + 1];
      PositionOfLast(t[1..], k, v);
    }
  }

  lemma {:induction false} PositionUpdate(t: Table, i: nat, v: Value, k: string)
    requires i < |t|
    ensures Position(t[i := Entry(t[i].key, v)], k) == Position(t, k)
  {
    var t' := t[i := Entry(t[i].key, v)];
    if i > 0 {
      assert t'[1..] == t[1..][i - 1 := Entry(t[i].key, v)];
      PositionUpdate(t[1..], i - 1, v, k);
    } else {
      assert t'[1..] == t[1..];
    }
  }

  /** What is put at a path is found there. */
  lemma {:induction false} PutResolve(t: Table, path: Path, u: Table)
    requires Resolve(t, path).Ok?
    ensures Resolve(Put(t, path, u), path) == Ok(u)
    decreases path
  {
    if path != [] {
      var i := Position(t, path[0]).value;
      var sub := Descend(t[i].value).value;
      PutResolve(sub, path[1..], u);
      PositionUpdate(t, i, Rebuild(t[i].value, Put(sub, path[1..], u)), path[0]);
    }
  }

  /** Putting back what is there changes nothing, and nothing needs creating. */
  lemma {:induction false} PutSame(t: Table, path: Path)
    requires Resolve(t, path).Ok?
    ensures Put(t, path, Resolve(t, path).value) == t
    ensures GetOrCreate(t, path) == Ok(t)
    decreases path
  {
    if path != [] {
      var i := Position(t, path[0]).value;
      var v := t[i].value;
      PutSame(Descend(v).value, path[1..]);
      assert Rebuild(v, Descend(v).value) == v by {
        if v.Array? {
          var a := v.items;
          assert a[..|a| - 1] + [a[|a| - 1]] == a;
        }
      }
      assert t[i := t[i]] == t;
    }
  }

  /** A path of one key. */
  lemma SingleStep(t: Table, k: string, i: nat, u: Table)
    requires Position(t, k) == Some(i)
    ensures Resolve(t, [k]) == Descend(t[i].value)
    ensures Descend(t[i].value).Ok? ==> Put(t, [k], u) == t[i := Entry(k, Rebuild(t[i].value, u))]
  {
    assert [k][1..] == [];
  }

  lemma UpdateLast(t: Table, e: Entry, e': Entry)
    ensures (t + [e])[|t|] == e && (t + [e])[|t| := e'] == t + [e']
  {}

  /** The last entry of a table, under a new key, is where the key leads. */
  lemma LastEntry(t: Table, k: string, v: Value, u: Table)
    requires !HasKey(t, k) && Descend(v).Ok?
    ensures Resolve(t + [Entry(k, v)], [k]) == Descend(v)
    ensures Put(t + [Entry(k, v)], [k], u) == t + [Entry(k, Rebuild(v, u))]
  {
    PositionOfLast(t, k, v);
    UpdateLast(t, Entry(k, v), Entry(k, Rebuild(v, u)));
    SingleStep(t + [Entry(k, v)], k, |t|, u);
  }

  /** Putting twice keeps the second table. */
  lemma {:induction false} PutPut(t: Table, path: Path, u: Table, w: Table)
    requires Resolve(t, path).Ok?
    ensures Resolve(Put(t, path, u), path).Ok? && Put(Put(t, path, u), path, w) == Put(t, path, w)
    decreases path
  {
    PutResolve(t, path, u);
    if path != [] {
      var i := Position(t, path[0]).value;
      var sub := Descend(t[i].value).value;
      PutPut(sub, path[1..], u, w);
      var v := Rebuild(t[i].value, Put(sub, path[1..], u));
      PositionUpdate(t, i, v, path[0]);
      var x := Put(sub, path[1..], w);
      assert Rebuild(v, x) == Rebuild(t[i].value, x);
    }
  }

  /** Paths compose: the table at `p + q` is the table at `q` inside the table at `p`. */
  lemma {:induction false} PathCompose(t: Table, p: Path, q: Path)
    requires Resolve(t, p).Ok?
    ensures Resolve(t, p + q) == Resolve(Resolve(t, p).value, q)
    ensures Resolve(t, p + q).Ok? ==>
      forall w :: Put(t, p + q, w) == Put(t, p, Put(Resolve(t, p).value, q, w))
    ensures GetOrCreate(t, p + q).Ok? == GetOrCreate(Resolve(t, p).value, q).Ok?
    ensures GetOrCreate(t, p + q).Ok? ==>
      GetOrCreate(t, p + q) == Ok(Put(t, p, GetOrCreate(Resolve(t, p).value, q).value))
    decreases p
  {
    if p == [] {
      assert p + q == q;
    } else {
      assert (p + q)[0] == p[0] && (p + q)[1..] == p[1..] + q;
      var i := Position(t, p[0]).value;
      PathCompose(Descend(t[i].value).value, p[1..], q);
    }
  }

  /** `get_or_create` leaves a path that resolves: to the table that was there, or to a new empty one. */
  lemma {:induction false} CreatedResolves(t: Table, path: Path)
    requires GetOrCreate(t, path).Ok?
    ensures Resolve(GetOrCreate(t, path).value, path) == Ok(if Resolve(t, path).Ok? then Resolve(t, path).value else [])
    decreases path
  {
    if path != [] {
      var t' := GetOrCreate(t, path).value;
      match Position(t, path[0]) {
        case None =>
          CreatedResolves([], path[1..]);
          var e := t'[|t|];
          PositionAppend(t, [e], path[0]);
          assert t' == t + [e];
          assert [e][0].key == path[0];
        case Some(i) =>
          CreatedResolves(Descend(t[i].value).value, path[1..]);
          PositionUpdate(t, i, t'[i].value, path[0]);
      }
    }
  }
}
