/** Blocks of the YAML codec: printing a tree to indented lines and parsing them undo each other. */
module YamlRoundTrip {
  import opened Wrappers
  import opened Seqs
  import opened Text
  import opened Values
  import opened YamlEncode
  import opened YamlParse
  import opened YamlLexical
  import opened YamlKeys

  /** The laws of float text that the codec relies on. */
  ghost predicate Lawful(ft: FloatText) {
    Inverse(ft) && ReadsIntegers(ft)
  }

  /** What a value reads back as. */
  function Canon(ft: FloatText, v: Value): Value {
    if !IsBlockContainer(v) then CanonInline(ft, v)
    else
      match v
      case Object(o) => Object(CanonEntries(ft, o))
      case Array(a) => Array(CanonItems(ft, a))
  }

  function CanonEntries(ft: FloatText, o: seq<Entry>): seq<Entry> {
    if o == [] then [] else [Entry(o[0].key, Canon(ft, o[0].value))] + CanonEntries(ft, o[1..])
  }

  function CanonItems(ft: FloatText, a: seq<Value>): seq<Value> {
    if a == [] then [] else [Canon(ft, a[0])] + CanonItems(ft, a[1..])
  }

  /** Whether a block comes back: nested within the limit, no key with ": " in it, and no
      such string as an item of a sequence. */
  predicate Readable(v: Value, depth: nat)
    decreases v, 1
  {
    && depth <= MAX_DEPTH
    && match v
       case Object(o) => forall i :: 0 <= i < |o| ==> EntryReadable(o[i], depth)
       case Array(a) => forall i :: 0 <= i < |a| ==> ItemReadable(a[i], depth)
       case _ => true
  }

  predicate EntryReadable(e: Entry, depth: nat)
    decreases e, 0
  {
    !HasColonSpace(e.key) && (IsBlockContainer(e.value) ==> Readable(e.value, depth + 1))
  }

  predicate ItemReadable(v: Value, depth: nat)
    decreases v, 2
  {
    if IsBlockContainer(v) then Readable(v, depth + 1) else v.Str? ==> !HasColonSpace(v.s)
  }

  /** The same mappings and sequences with the same keys, whatever the scalars in them. */
  predicate Alike(a: Value, b: Value)
    decreases a
  {
    match a
    case Object(o) =>
      && b.Object? && |o| == |b.entries|
      && forall i :: 0 <= i < |o| ==> o[i].key == b.entries[i].key && Alike(o[i].value, b.entries[i].value)
    case Array(xs) => b.Array? && |xs| == |b.items| && forall i :: 0 <= i < |xs| ==> Alike(xs[i], b.items[i])
    case _ => !b.Object? && !b.Array?
  }

  predicate AlikeEntry(a: Entry, b: Entry) {
    a.key == b.key && Alike(a.value, b.value)
  }

  /** A readable block gives its canonical form and leaves `rest`; any other fails or gives
      a value of another shape. */
  ghost predicate Reads(r: Parsed<Value>, ok: bool, canon: Value, rest: seq<Line>) {
    if ok then r == Ok((canon, rest)) else r.Err? || !Alike(r.value.0, canon)
  }

  /** The lines that may follow a block at an indentation. */
  predicate Ends(rest: seq<Line>, indent: nat) {
    rest == [] || rest[0].indent < indent
  }

  // ---- entries -------------------------------------------------------------------

  lemma KeyIsNoItem(ft: FloatText, k: string, tail: string)
    ensures (StringText(ft, k) + tail)[0] != '-'
  {
    StringTextReads(ft, k);
  }

  /** The key line of an entry, safe or not. */
  lemma KeyLine(ft: FloatText, k: string, tail: string) returns (key: string, rest: string)
    requires tail == [] || tail[0] == ' '
    ensures MappingKey(StringText(ft, k) + (":" + tail)) == Some((key, rest))
    ensures if HasColonSpace(k) then key != k && rest != [] else key == k && rest == Trim(tail)
  {
    if HasColonSpace(k) {
      UnsafeNeedsQuote(ft, k);
      UnsafeKey(k, tail);
      var m := MappingKey(Quoted(k) + (":" + tail));
      return m.value.0, m.value.1;
    } else {
      SafeKey(ft, k, tail);
      return k, Trim(tail);
    }
  }

  lemma UnsafeNeedsQuote(ft: FloatText, k: string)
    requires HasColonSpace(k)
    ensures NeedsQuote(ft, k)
  {
    if !NeedsQuote(ft, k) { PlainHasNoColon(ft, k); }
  }

  /** Whatever follows, a mapping loop keeps the entries it has. */
  lemma {:induction false} MappingExtends(ft: FloatText, ls: seq<Line>, indent: nat, depth: nat, acc: seq<Entry>)
    ensures Extends(MappingLoop(ft, ls, indent, depth, acc), acc)
    decreases |ls|
  {
    if ls != [] && ls[0].indent == indent && !IsItem(ls[0]) && MappingKey(ls[0].content).Some? {
      var m := MappingKey(ls[0].content).value;
      var r := ParseEntryValue(ft, m.1, ls[1..], indent, depth);
      if r.Ok? { MappingExtends(ft, r.value.1, indent, depth, acc + [Entry(m.0, r.value.0)]); }
      KeyLineStep(ft, ls, indent, m.0, m.1, depth, acc);
      StillExtends(ft, r, m.0, indent, depth, acc);
    }
  }

  predicate Extends(r: Parsed<Value>, acc: seq<Entry>) {
    r.Ok? ==> r.value.0.Object? && acc <= r.value.0.entries
  }

  lemma StillExtends(ft: FloatText, r: Parsed<Value>, key: string, indent: nat, depth: nat, acc: seq<Entry>)
    requires r.Ok? ==> Extends(MappingLoop(ft, r.value.1, indent, depth, acc + [Entry(key, r.value.0)]),
                               acc + [Entry(key, r.value.0)])
    ensures Extends(ThenEntry(ft, r, key, indent, depth, acc), acc)
  {
    if r.Ok? { FewerExtend(MappingLoop(ft, r.value.1, indent, depth, acc + [Entry(key, r.value.0)]), acc,
                           Entry(key, r.value.0)); }
  }

  lemma FewerExtend(r: Parsed<Value>, acc: seq<Entry>, e: Entry)
    requires Extends(r, acc + [e])
    ensures Extends(r, acc)
  {}

  /** The loop after a value: it goes on with one more entry, or the value failed. */
  function ThenEntry(ft: FloatText, r: Parsed<Value>, key: string, indent: nat, depth: nat,
                     acc: seq<Entry>): Parsed<Value> {
    if r.Err? then Err(r.error) else MappingLoop(ft, r.value.1, indent, depth, acc + [Entry(key, r.value.0)])
  }

  /** What a mapping loop does with one key line. */
  lemma KeyLineStep(ft: FloatText, ls: seq<Line>, indent: nat, key: string, rest: string, depth: nat, acc: seq<Entry>)
    requires ls != [] && ls[0].indent == indent && !IsItem(ls[0])
    requires MappingKey(ls[0].content) == Some((key, rest))
    ensures MappingLoop(ft, ls, indent, depth, acc) ==
      ThenEntry(ft, ParseEntryValue(ft, rest, ls[1..], indent, depth), key, indent, depth, acc)
  {}

  /** The loop has read `e` correctly and goes on, or has failed or gone wrong for good. */
  ghost predicate AfterEntry(ft: FloatText, r: Parsed<Value>, next: seq<Line>, indent: nat, depth: nat,
                             acc: seq<Entry>, e: Entry) {
    var x := Entry(e.key, Canon(ft, e.value));
    if EntryReadable(e, depth) then r == MappingLoop(ft, next, indent, depth, acc + [x])
    else r.Err? || WrongAt(r.value.0, acc, x)
  }

  /** A mapping that starts with the entries of `acc` and then has one unlike `x`. */
  predicate WrongAt(v: Value, acc: seq<Entry>, x: Entry) {
    v.Object? && acc < v.entries && !AlikeEntry(v.entries[|acc|], x)
  }

  /** Once an entry is wrong, so is the mapping. */
  lemma WrongStays(ft: FloatText, ls: seq<Line>, indent: nat, depth: nat, acc: seq<Entry>, y: Entry, x: Entry)
    requires !AlikeEntry(y, x)
    ensures var r := MappingLoop(ft, ls, indent, depth, acc + [y]); r.Err? || WrongAt(r.value.0, acc, x)
  {
    MappingExtends(ft, ls, indent, depth, acc + [y]);
    var r := MappingLoop(ft, ls, indent, depth, acc + [y]);
    if r.Ok? {
      var es := r.value.0.entries;
      assert es[|acc|] == (acc + [y])[|acc|] == y;
      assert es[..|acc|] == (acc + [y])[..|acc|] == acc;
    }
  }

  /** The marker line of an entry. */
  lemma KeyText(ft: FloatText, k: string, text: string)
    ensures StringText(ft, k) + ":" + " " + text == StringText(ft, k) + (":" + (" " + text))
    ensures StringText(ft, k) + ":" == StringText(ft, k) + (":" + "")
  {
    var t := StringText(ft, k);
    Assoc(t + ":", " ", text);
    Assoc(t, ":", " " + text);
    assert ":" + "" == ":";
  }

  /** An entry whose value fits on its line. */
  lemma InlineEntry(ft: FloatText, e: Entry, indent: nat, depth: nat, acc: seq<Entry>, next: seq<Line>)
    requires Lawful(ft) && !IsBlockContainer(e.value)
    ensures AfterEntry(ft,
                       MappingLoop(ft, MarkerLines(ft, StringText(ft, e.key) + ":", e.value, indent) + next, indent,
                                   depth, acc),
                       next, indent, depth, acc, e)
  {
    var text := InlineText(ft, e.value);
    InlineReads(ft, e.value);
    TrimAfterSpace(text);
    KeyText(ft, e.key, text);
    var key, rest := KeyLine(ft, e.key, " " + text);
    KeyIsNoItem(ft, e.key, ":" + (" " + text));
    var line := Line(indent, StringText(ft, e.key) + ":" + " " + text);
    Parts([line], next);
    KeyLineStep(ft, [line] + next, indent, key, rest, depth, acc);
    if HasColonSpace(e.key) {
      WrongStays(ft, next, indent, depth, acc, Entry(key, ParseScalar(ft, rest)), Entry(e.key, Canon(ft, e.value)));
    }
  }

  /** A deeper line starts a child block. */
  lemma ChildBelow(ft: FloatText, child: seq<Line>, next: seq<Line>, indent: nat, depth: nat)
    requires child != [] && child[0].indent == indent + 2
    ensures ParseChild(ft, child + next, indent, depth) == ParseBlock(ft, child + next, indent + 2, depth + 1)
  {
    assert (child + next)[0] == child[0];
  }

  /** The key line above a child block. */
  lemma BareKeyLine(ft: FloatText, k: string, indent: nat, depth: nat, acc: seq<Entry>, below: seq<Line>)
    returns (key: string, rest: string)
    ensures if HasColonSpace(k) then key != k && rest != [] else key == k && rest == []
    ensures MappingLoop(ft, [Line(indent, StringText(ft, k) + ":")] + below, indent, depth, acc) ==
      ThenEntry(ft, ParseEntryValue(ft, rest, below, indent, depth), key, indent, depth, acc)
  {
    var line := Line(indent, StringText(ft, k) + ":");
    KeyText(ft, k, "");
    key, rest := KeyLine(ft, k, "");
    KeyIsNoItem(ft, k, ":");
    assert Trim("") == "";
    Parts([line], below);
    KeyLineStep(ft, [line] + below, indent, key, rest, depth, acc);
  }

  /** The loop after an entry whose key or value came out wrong, or right. */
  lemma EntryAfterValue(ft: FloatText, e: Entry, key: string, r: Parsed<Value>, indent: nat, depth: nat,
                        acc: seq<Entry>, next: seq<Line>)
    requires EntryReadable(e, depth) ==> key == e.key && r == Ok((Canon(ft, e.value), next))
    requires !EntryReadable(e, depth) ==> r.Err? || !AlikeEntry(Entry(key, r.value.0), Entry(e.key, Canon(ft, e.value)))
    ensures AfterEntry(ft, ThenEntry(ft, r, key, indent, depth, acc), next, indent, depth, acc, e)
  {
    if r.Ok? && !EntryReadable(e, depth) {
      WrongStays(ft, r.value.1, indent, depth, acc, Entry(key, r.value.0), Entry(e.key, Canon(ft, e.value)));
    }
  }

  /** An entry whose value is a block below it. */
  lemma BlockEntry(ft: FloatText, e: Entry, indent: nat, depth: nat, acc: seq<Entry>, next: seq<Line>)
    requires IsBlockContainer(e.value)
    requires Reads(ParseBlock(ft, BlockLines(ft, e.value, indent + 2) + next, indent + 2, depth + 1),
                   Readable(e.value, depth + 1), Canon(ft, e.value), next)
    ensures AfterEntry(ft,
                       MappingLoop(ft, MarkerLines(ft, StringText(ft, e.key) + ":", e.value, indent) + next, indent,
                                   depth, acc),
                       next, indent, depth, acc, e)
  {
    var child := BlockLines(ft, e.value, indent + 2);
    var key, rest := BareKeyLine(ft, e.key, indent, depth, acc, child + next);
    Assoc([Line(indent, StringText(ft, e.key) + ":")], child, next);
    ChildBelow(ft, child, next, indent, depth);
    EntryAfterValue(ft, e, key, ParseEntryValue(ft, rest, child + next, indent, depth), indent, depth, acc, next);
  }

  predicate EntriesReadable(o: seq<Entry>, depth: nat) {
    forall i :: 0 <= i < |o| ==> EntryReadable(o[i], depth)
  }

  /** What a mapping loop adds to the entries it has. */
  ghost predicate EntriesRead(r: Parsed<Value>, ok: bool, acc: seq<Entry>, canon: seq<Entry>, rest: seq<Line>) {
    if ok then r == Ok((Object(acc + canon), rest))
    else r.Err? || !Alike(r.value.0, Object(acc + canon))
  }

  lemma {:induction false} MappingParses(ft: FloatText, o: seq<Entry>, indent: nat, depth: nat, acc: seq<Entry>,
                                         rest: seq<Line>)
    requires Lawful(ft) && Ends(rest, indent)
    ensures EntriesRead(MappingLoop(ft, MappingLines(ft, o, indent) + rest, indent, depth, acc),
                        EntriesReadable(o, depth), acc, CanonEntries(ft, o), rest)
    decreases o, 0
  {
    if o == [] {
      assert [] + rest == rest;
      assert acc + [] == acc;
    } else {
      var e, more := o[0], MappingLines(ft, o[1..], indent);
      Assoc(MarkerLines(ft, StringText(ft, e.key) + ":", e.value, indent), more, rest);
      MappingContinues(ft, o[1..], indent, rest);
      if IsBlockContainer(e.value) {
        BlockParses(ft, e.value, indent + 2, depth + 1, more + rest);
        BlockEntry(ft, e, indent, depth, acc, more + rest);
      } else {
        InlineEntry(ft, e, indent, depth, acc, more + rest);
      }
      EntriesReadableStep(o, depth);
      var x := Entry(e.key, Canon(ft, e.value));
      if EntryReadable(e, depth) {
        MappingParses(ft, o[1..], indent, depth, acc + [x], rest);
      }
      EntriesReadStep(EntryReadable(e, depth), EntriesReadable(o[1..], depth), acc, x, CanonEntries(ft, o[1..]), rest,
                      MappingLoop(ft, MappingLines(ft, o, indent) + rest, indent, depth, acc));
    }
  }

  lemma EntriesReadableStep(o: seq<Entry>, depth: nat)
    requires o != []
    ensures EntriesReadable(o, depth) <==> EntryReadable(o[0], depth) && EntriesReadable(o[1..], depth)
  {
    var rest := o[1..];
    if EntryReadable(o[0], depth) && EntriesReadable(rest, depth) {
      forall i | 0 <= i < |o|
        ensures EntryReadable(o[i], depth)
      {
        if i > 0 { assert rest[i - 1] == o[i]; }
      }
    }
  }

  lemma EntriesReadStep(ok: bool, more: bool, acc: seq<Entry>, x: Entry, canon: seq<Entry>, rest: seq<Line>,
                        r: Parsed<Value>)
    requires ok ==> EntriesRead(r, more, acc + [x], canon, rest)
    requires !ok ==> r.Err? || WrongAt(r.value.0, acc, x)
    ensures EntriesRead(r, ok && more, acc, [x] + canon, rest)
  {
    Assoc(acc, [x], canon);
    assert (acc + [x] + canon)[|acc|] == x;
  }

  lemma MappingContinues(ft: FloatText, o: seq<Entry>, indent: nat, rest: seq<Line>)
    requires Ends(rest, indent)
    ensures Ends(MappingLines(ft, o, indent) + rest, indent + 1)
  {
    if o == [] { assert [] + rest == rest; }
  }

  // ---- items -----------------------------------------------------------------------

  lemma ItemStep(ft: FloatText, ls: seq<Line>, indent: nat, depth: nat, acc: seq<Value>)
    requires ls != [] && ls[0].indent == indent && IsItem(ls[0])
    ensures SequenceLoop(ft, ls, indent, depth, acc) ==
      ThenItem(ft, ParseItemValue(ft, TrimStart(ls[0].content[1..]), ls[1..], indent, depth), indent, depth, acc)
  {}

  function ThenItem(ft: FloatText, r: Parsed<Value>, indent: nat, depth: nat, acc: seq<Value>): Parsed<Value> {
    if r.Err? then Err(r.error) else SequenceLoop(ft, r.value.1, indent, depth, acc + [r.value.0])
  }

  /** Whatever follows, a sequence loop keeps the items it has. */
  lemma {:induction false} SequenceExtends(ft: FloatText, ls: seq<Line>, indent: nat, depth: nat, acc: seq<Value>)
    ensures var r := SequenceLoop(ft, ls, indent, depth, acc); r.Ok? ==> r.value.0.Array? && acc <= r.value.0.items
    decreases |ls|
  {
    if ls != [] && ls[0].indent == indent && IsItem(ls[0]) {
      ItemStep(ft, ls, indent, depth, acc);
      var r := ParseItemValue(ft, TrimStart(ls[0].content[1..]), ls[1..], indent, depth);
      if r.Ok? { SequenceExtends(ft, r.value.1, indent, depth, acc + [r.value.0]); }
    }
  }

  predicate WrongItemAt(v: Value, acc: seq<Value>, x: Value) {
    v.Array? && acc < v.items && !Alike(v.items[|acc|], x)
  }

  lemma WrongItemStays(ft: FloatText, ls: seq<Line>, indent: nat, depth: nat, acc: seq<Value>, y: Value, x: Value)
    requires !Alike(y, x)
    ensures var r := SequenceLoop(ft, ls, indent, depth, acc + [y]); r.Err? || WrongItemAt(r.value.0, acc, x)
  {
    SequenceExtends(ft, ls, indent, depth, acc + [y]);
    var r := SequenceLoop(ft, ls, indent, depth, acc + [y]);
    if r.Ok? {
      var xs := r.value.0.items;
      assert xs[|acc|] == (acc + [y])[|acc|] == y;
      assert xs[..|acc|] == (acc + [y])[..|acc|] == acc;
    }
  }

  ghost predicate AfterItem(ft: FloatText, r: Parsed<Value>, next: seq<Line>, indent: nat, depth: nat, acc: seq<Value>,
                            v: Value) {
    if ItemReadable(v, depth) then r == SequenceLoop(ft, next, indent, depth, acc + [Canon(ft, v)])
    else r.Err? || WrongItemAt(r.value.0, acc, Canon(ft, v))
  }

  lemma NoColonNoKey(t: string)
    requires ':' !in t
    ensures MappingKey(t).None?
  {
    SkipColonless(t, "");
    assert t + "" == t;
  }

  lemma StringItemReads(ft: FloatText, s: string, t: string)
    requires t == StringText(ft, s) && ParseScalar(ft, t) == Str(s)
    ensures if HasColonSpace(s) then ItemValue(ft, t).Object? else ItemValue(ft, t) == Str(s)
  {
    StringIsKeyIff(ft, s, t);
  }

  lemma KeyIff(t: string)
    ensures MappingKey(t).None? <==> ColonAt(t).None?
  {}

  lemma StringIsKeyIff(ft: FloatText, s: string, t: string)
    requires t == StringText(ft, s)
    ensures MappingKey(t).None? <==> !HasColonSpace(s)
  {
    KeyIff(t);
    assert t + "" == t;
    if HasColonSpace(s) {
      UnsafeNeedsQuote(ft, s);
      UnsafeTextColon(s, "");
    } else {
      SafeTextColon(ft, s, "");
    }
  }

  /** An item is read as a scalar unless it is a string with ": " in it. */
  lemma ItemReads(ft: FloatText, v: Value)
    requires Lawful(ft) && !IsBlockContainer(v)
    ensures var r := ItemValue(ft, InlineText(ft, v));
            if ItemReadable(v, 0) then r == Canon(ft, v) else !Alike(r, Canon(ft, v))
  {
    var t := InlineText(ft, v);
    InlineReads(ft, v);
    match v {
      case Str(s) => StringItemReads(ft, s, t);
      case Bytes(b) =>
        ByteListHasNoColon(b);
        EscapeKeepsColonless(ByteList(b));
        NoColonNoKey(t);
      case Int(i) => IntegerReads(ft, i); NoColonNoKey(t);
      case UInt(u) => IntegerReads(ft, u); NoColonNoKey(t);
      case Float(f) => FloatIsTight(ft, f); NoColonNoKey(t);
      case _ => KeywordReads(ft, v); NoColonNoKey(t);
    }
  }

  lemma {:induction false} ByteListHasNoColon(b: seq<u8>)
    ensures ':' !in ByteList(b)
  {
    if b != [] {
      assert forall c <- Decimal.Numeral(b[0]) :: IsDigit(c);
      ByteListHasNoColon(b[1..]);
    }
  }

  lemma {:induction false} EscapeKeepsColonless(s: string)
    requires ':' !in s
    ensures ':' !in Escape(s) && ':' !in Quoted(s)
  {
    if s != [] { EscapeKeepsColonless(s[1..]); }
  }

  lemma ItemText(text: string)
    requires IsTight(text)
    ensures var c := "-" + " " + text; c[0] == '-' && TrimStart(c[1..]) == text
  {
    Assoc("-", " ", text);
    Parts("-", " " + text);
    TrimAfterSpace(text);
  }

  lemma InlineItem(ft: FloatText, v: Value, indent: nat, depth: nat, acc: seq<Value>, next: seq<Line>)
    requires Lawful(ft) && !IsBlockContainer(v)
    ensures AfterItem(ft, SequenceLoop(ft, MarkerLines(ft, "-", v, indent) + next, indent, depth, acc), next, indent,
                      depth, acc, v)
  {
    var text := InlineText(ft, v);
    InlineReads(ft, v);
    ItemText(text);
    var line := Line(indent, "-" + " " + text);
    Parts([line], next);
    ItemStep(ft, [line] + next, indent, depth, acc);
    ItemReads(ft, v);
    if !ItemReadable(v, depth) {
      WrongItemStays(ft, next, indent, depth, acc, ItemValue(ft, text), Canon(ft, v));
    }
  }

  /** The marker line above a child block. */
  lemma BareMarker(ft: FloatText, indent: nat, depth: nat, acc: seq<Value>, below: seq<Line>)
    ensures SequenceLoop(ft, [Line(indent, "-")] + below, indent, depth, acc) ==
      ThenItem(ft, ParseChild(ft, below, indent, depth), indent, depth, acc)
  {
    var line := Line(indent, "-");
    Parts([line], below);
    ItemStep(ft, [line] + below, indent, depth, acc);
    assert TrimStart("-"[1..]) == "";
  }

  lemma ItemAfterValue(ft: FloatText, v: Value, r: Parsed<Value>, indent: nat, depth: nat, acc: seq<Value>,
                       next: seq<Line>)
    requires ItemReadable(v, depth) ==> r == Ok((Canon(ft, v), next))
    requires !ItemReadable(v, depth) ==> r.Err? || !Alike(r.value.0, Canon(ft, v))
    ensures AfterItem(ft, ThenItem(ft, r, indent, depth, acc), next, indent, depth, acc, v)
  {
    if r.Ok? && !ItemReadable(v, depth) {
      WrongItemStays(ft, r.value.1, indent, depth, acc, r.value.0, Canon(ft, v));
    }
  }

  lemma BlockItem(ft: FloatText, v: Value, indent: nat, depth: nat, acc: seq<Value>, next: seq<Line>)
    requires IsBlockContainer(v)
    requires Reads(ParseBlock(ft, BlockLines(ft, v, indent + 2) + next, indent + 2, depth + 1),
                   Readable(v, depth + 1), Canon(ft, v), next)
    ensures AfterItem(ft, SequenceLoop(ft, MarkerLines(ft, "-", v, indent) + next, indent, depth, acc), next, indent,
                      depth, acc, v)
  {
    var child := BlockLines(ft, v, indent + 2);
    BareMarker(ft, indent, depth, acc, child + next);
    Assoc([Line(indent, "-")], child, next);
    ChildBelow(ft, child, next, indent, depth);
    ItemAfterValue(ft, v, ParseChild(ft, child + next, indent, depth), indent, depth, acc, next);
  }

  predicate ItemsReadable(a: seq<Value>, depth: nat) {
    forall i :: 0 <= i < |a| ==> ItemReadable(a[i], depth)
  }

  ghost predicate ItemsRead(r: Parsed<Value>, ok: bool, acc: seq<Value>, canon: seq<Value>, rest: seq<Line>) {
    if ok then r == Ok((Array(acc + canon), rest))
    else r.Err? || !Alike(r.value.0, Array(acc + canon))
  }

  lemma {:induction false} SequenceParses(ft: FloatText, a: seq<Value>, indent: nat, depth: nat, acc: seq<Value>,
                                          rest: seq<Line>)
    requires Lawful(ft) && Ends(rest, indent)
    ensures ItemsRead(SequenceLoop(ft, SequenceLines(ft, a, indent) + rest, indent, depth, acc),
                      ItemsReadable(a, depth), acc, CanonItems(ft, a), rest)
    decreases a, 0
  {
    if a == [] {
      assert [] + rest == rest;
      assert acc + [] == acc;
    } else {
      var v, more := a[0], SequenceLines(ft, a[1..], indent);
      Assoc(MarkerLines(ft, "-", v, indent), more, rest);
      SequenceContinues(ft, a[1..], indent, rest);
      if IsBlockContainer(v) {
        BlockParses(ft, v, indent + 2, depth + 1, more + rest);
        BlockItem(ft, v, indent, depth, acc, more + rest);
      } else {
        InlineItem(ft, v, indent, depth, acc, more + rest);
      }
      ItemsReadableStep(a, depth);
      if ItemReadable(v, depth) {
        SequenceParses(ft, a[1..], indent, depth, acc + [Canon(ft, v)], rest);
      }
      ItemsReadStep(ItemReadable(v, depth), ItemsReadable(a[1..], depth), acc, Canon(ft, v), CanonItems(ft, a[1..]),
                    rest,
                    SequenceLoop(ft, SequenceLines(ft, a, indent) + rest, indent, depth, acc));
    }
  }

  lemma ItemsReadableStep(a: seq<Value>, depth: nat)
    requires a != []
    ensures ItemsReadable(a, depth) <==> ItemReadable(a[0], depth) && ItemsReadable(a[1..], depth)
  {
    var rest := a[1..];
    if ItemReadable(a[0], depth) && ItemsReadable(rest, depth) {
      forall i | 0 <= i < |a|
        ensures ItemReadable(a[i], depth)
      {
        if i > 0 { assert rest[i - 1] == a[i]; }
      }
    }
  }

  lemma ItemsReadStep(ok: bool, more: bool, acc: seq<Value>, x: Value, canon: seq<Value>, rest: seq<Line>,
                      r: Parsed<Value>)
    requires ok ==> ItemsRead(r, more, acc + [x], canon, rest)
    requires !ok ==> r.Err? || WrongItemAt(r.value.0, acc, x)
    ensures ItemsRead(r, ok && more, acc, [x] + canon, rest)
  {
    Assoc(acc, [x], canon);
    assert (acc + [x] + canon)[|acc|] == x;
  }

  lemma SequenceContinues(ft: FloatText, a: seq<Value>, indent: nat, rest: seq<Line>)
    requires Ends(rest, indent)
    ensures Ends(SequenceLines(ft, a, indent) + rest, indent + 1)
  {
    if a == [] { assert [] + rest == rest; }
  }

  // ---- blocks ------------------------------------------------------------------------

  /** A printed block is read back in canonical form, consuming exactly its lines, if and only if
      it is readable. */
  lemma {:induction false} BlockParses(ft: FloatText, v: Value, indent: nat, depth: nat, rest: seq<Line>)
    requires Lawful(ft) && IsBlockContainer(v) && Ends(rest, indent)
    ensures Reads(ParseBlock(ft, BlockLines(ft, v, indent) + rest, indent, depth), Readable(v, depth), Canon(ft, v),
                  rest)
    decreases v, 0
  {
    if depth <= MAX_DEPTH {
      match v {
        case Object(o) =>
          MappingParses(ft, o, indent, depth, [], rest);
          MappingBlock(ft, o, indent, depth, rest);
        case Array(a) =>
          SequenceParses(ft, a, indent, depth, [], rest);
          SequenceBlock(ft, a, indent, depth, rest);
      }
    }
  }

  lemma MappingOutcome(r: Parsed<Value>, ok: bool, canon: seq<Entry>, rest: seq<Line>)
    requires EntriesRead(r, ok, [], canon, rest)
    ensures Reads(r, ok, Object(canon), rest)
  {
    assert [] + canon == canon;
  }

  lemma ObjectShape(ft: FloatText, o: seq<Entry>, indent: nat, depth: nat)
    requires o != [] && depth <= MAX_DEPTH
    ensures BlockLines(ft, Object(o), indent) == MappingLines(ft, o, indent)
    ensures Canon(ft, Object(o)) == Object(CanonEntries(ft, o))
    ensures Readable(Object(o), depth) <==> EntriesReadable(o, depth)
  {}

  lemma MappingBlock(ft: FloatText, o: seq<Entry>, indent: nat, depth: nat, rest: seq<Line>)
    requires o != [] && depth <= MAX_DEPTH
    requires EntriesRead(MappingLoop(ft, MappingLines(ft, o, indent) + rest, indent, depth, []),
                         EntriesReadable(o, depth), [], CanonEntries(ft, o), rest)
    ensures Reads(ParseBlock(ft, BlockLines(ft, Object(o), indent) + rest, indent, depth), Readable(Object(o), depth),
                  Canon(ft, Object(o)), rest)
  {
    ObjectShape(ft, o, indent, depth);
    MappingStarts(ft, o, indent, depth, rest);
    MappingOutcome(MappingLoop(ft, MappingLines(ft, o, indent) + rest, indent, depth, []),
                   EntriesReadable(o, depth), CanonEntries(ft, o), rest);
  }

  lemma SequenceOutcome(r: Parsed<Value>, ok: bool, canon: seq<Value>, rest: seq<Line>)
    requires ItemsRead(r, ok, [], canon, rest)
    ensures Reads(r, ok, Array(canon), rest)
  {
    assert [] + canon == canon;
  }

  lemma ArrayShape(ft: FloatText, a: seq<Value>, indent: nat, depth: nat)
    requires a != [] && depth <= MAX_DEPTH
    ensures BlockLines(ft, Array(a), indent) == SequenceLines(ft, a, indent)
    ensures Canon(ft, Array(a)) == Array(CanonItems(ft, a))
    ensures Readable(Array(a), depth) <==> ItemsReadable(a, depth)
  {}

  lemma SequenceBlock(ft: FloatText, a: seq<Value>, indent: nat, depth: nat, rest: seq<Line>)
    requires a != [] && depth <= MAX_DEPTH
    requires ItemsRead(SequenceLoop(ft, SequenceLines(ft, a, indent) + rest, indent, depth, []),
                       ItemsReadable(a, depth), [], CanonItems(ft, a), rest)
    ensures Reads(ParseBlock(ft, BlockLines(ft, Array(a), indent) + rest, indent, depth), Readable(Array(a), depth),
                  Canon(ft, Array(a)), rest)
  {
    ArrayShape(ft, a, indent, depth);
    SequenceStarts(ft, a, indent, depth, rest);
    SequenceOutcome(SequenceLoop(ft, SequenceLines(ft, a, indent) + rest, indent, depth, []),
                    ItemsReadable(a, depth), CanonItems(ft, a), rest);
  }

  lemma MappingStarts(ft: FloatText, o: seq<Entry>, indent: nat, depth: nat, rest: seq<Line>)
    requires o != [] && depth <= MAX_DEPTH
    ensures ParseBlock(ft, MappingLines(ft, o, indent) + rest, indent, depth) ==
      MappingLoop(ft, MappingLines(ft, o, indent) + rest, indent, depth, [])
  {
    var k, text := StringText(ft, o[0].key), InlineText(ft, o[0].value);
    var tail := if IsBlockContainer(o[0].value) then "" else " " + text;
    KeyText(ft, o[0].key, text);
    var line := MarkerLines(ft, k + ":", o[0].value, indent)[0];
    assert line.content == k + (":" + tail);
    var key, r := KeyLine(ft, o[0].key, tail);
    KeyIsNoItem(ft, o[0].key, ":" + tail);
    assert (MappingLines(ft, o, indent) + rest)[0] == line;
  }

  lemma SequenceStarts(ft: FloatText, a: seq<Value>, indent: nat, depth: nat, rest: seq<Line>)
    requires a != [] && depth <= MAX_DEPTH
    ensures ParseBlock(ft, SequenceLines(ft, a, indent) + rest, indent, depth) ==
      SequenceLoop(ft, SequenceLines(ft, a, indent) + rest, indent, depth, [])
  {
    var line := MarkerLines(ft, "-", a[0], indent)[0];
    if !IsBlockContainer(a[0]) { Assoc("-", " ", InlineText(ft, a[0])); }
    assert IsItem(line);
    assert (SequenceLines(ft, a, indent) + rest)[0] == line;
  }
}
