/** Server-sent events (`http/sse.rs`): frames, and what the decoder makes of their lines. */
module SseEvent {
  import opened Wrappers
  import opened Seqs
  import opened Decimal

  datatype Event = Event(data: string, event: Option<string>, id: Option<string>, retry: Option<u64>,
                         comment: Option<string>)

  const BLANK := Event([], None, None, None, None)

  const DATA: string := ['d', 'a', 't', 'a']
  const EVENT: string := ['e', 'v', 'e', 'n', 't']
  const ID: string := ['i', 'd']
  const RETRY: string := ['r', 'e', 't', 'r', 'y']

  // ---- lines ------------------------------------------------------------------------------------

  /** `split('\n')`: always at least one line. */
  function SplitLines(s: string): (ls: seq<string>)
    ensures ls != []
  {
    if s == [] then [[]]
    else
      var ls := SplitLines(s[1..]);
      if s[0] == '\n' then [[]] + ls else [[s[0]] + ls[0]] + ls[1..]
  }

  function JoinLines(ls: seq<string>): string
    requires ls != []
  {
    if |ls| == 1 then ls[0] else ls[0] + ['\n'] + JoinLines(ls[1..])
  }

  predicate OneLine(s: string) {
    '\n' !in s
  }

  lemma {:induction false} SplitJoins(s: string)
    ensures JoinLines(SplitLines(s)) == s
    ensures forall i :: 0 <= i < |SplitLines(s)| ==> OneLine(SplitLines(s)[i])
  {
    if s != [] {
      SplitJoins(s[1..]);
      HeadTail(s);
      var ls := SplitLines(s[1..]);
      if s[0] == '\n' {
        assert ([[]] + ls)[1..] == ls;
        assert JoinLines([[]] + ls) == [] + ['\n'] + JoinLines(ls);
      } else {
        var all := [[s[0]] + ls[0]] + ls[1..];
        assert all[1..] == ls[1..];
        if |ls| > 1 {
          Assoc([s[0]], ls[0], ['\n']);
          Assoc([s[0]], ls[0] + ['\n'], JoinLines(ls[1..]));
        }
      }
    }
  }

  predicate EndsCr(s: string) {
    s != [] && s[|s| - 1] == '\r'
  }

  /** One carriage return before the line feed belongs to the line end. */
  function StripCr(s: string): string {
    if EndsCr(s) then s[..|s| - 1] else s
  }

  function StripAll(ls: seq<string>): (r: seq<string>)
    ensures |r| == |ls|
  {
    if ls == [] then [] else [StripCr(ls[0])] + StripAll(ls[1..])
  }

  predicate NoCr(s: string) {
    forall i :: 0 <= i < |SplitLines(s)| ==> !EndsCr(SplitLines(s)[i])
  }

  // ---- writing ----------------------------------------------------------------------------------

  function FieldLine(name: string, value: string): string {
    name + ([':', ' '] + value)
  }

  function FieldLines(name: string, values: seq<string>): (r: seq<string>)
    ensures |r| == |values|
  {
    if values == [] then [] else [FieldLine(name, values[0])] + FieldLines(name, values[1..])
  }

  function CommentLines(e: Event): seq<string> {
    match e.comment case Some(c) => FieldLines([], SplitLines(c)) case None => []
  }

  function OptionLine(name: string, value: Option<string>): seq<string> {
    match value case Some(v) => [FieldLine(name, v)] case None => []
  }

  function RetryLine(e: Event): seq<string> {
    match e.retry case Some(ms) => [FieldLine(RETRY, IntText(ms))] case None => []
  }

  predicate HasData(e: Event) {
    e.data != [] || (e.comment.None? && e.event.None?)
  }

  function DataLines(e: Event): seq<string> {
    if HasData(e) then FieldLines(DATA, SplitLines(e.data)) else []
  }

  /** The frame, as the texts put before each line feed. */
  function FrameLines(e: Event): seq<string> {
    CommentLines(e) + OptionLine(EVENT, e.event) + OptionLine(ID, e.id) + RetryLine(e) + DataLines(e) + [[]]
  }

  function Unlines(ls: seq<string>): string {
    if ls == [] then [] else ls[0] + ['\n'] + Unlines(ls[1..])
  }

  /** `to_frame`. */
  function ToFrame(e: Event): string {
    Unlines(FrameLines(e))
  }

  // ---- reading ----------------------------------------------------------------------------------

  /** `split_once(':')`. */
  function SplitColon(s: string): Option<(string, string)> {
    if s == [] then None
    else if s[0] == ':' then Some(([], s[1..]))
    else match SplitColon(s[1..])
      case None => None
      case Some(p) => Some(([s[0]] + p.0, p.1))
  }

  function StripSpace(s: string): string {
    if s != [] && s[0] == ' ' then s[1..] else s
  }

  function AddComment(comment: Option<string>, text: string): string {
    match comment
    case None => text
    case Some(c) => if c == [] then text else c + ['\n'] + text
  }

  function SetField(cur: Event, name: string, value: string): Event {
    if name == DATA then cur.(data := cur.data + value + ['\n'])
    else if name == EVENT then cur.(event := Some(value))
    else if name == ID then cur.(id := Some(value))
    else if name == RETRY then
      var ms := ParseU64(value);
      if ms.Some? then cur.(retry := Some(ms.value)) else cur
    else cur
  }

  function Field(cur: Event, line: string): Event {
    if line != [] && line[0] == ':' then cur.(comment := Some(AddComment(cur.comment, StripSpace(line[1..])))) else
      match SplitColon(line)
      case Some(p) => SetField(cur, p.0, StripSpace(p.1))
      case None => SetField(cur, line, [])
  }

  /** An event under construction; `dirty` once it has had a line. */
  datatype Pending = Pending(cur: Event, dirty: bool)

  const FRESH := Pending(BLANK, false)

  function Dispatch(cur: Event): Event {
    if cur.data != [] && cur.data[|cur.data| - 1] == '\n' then cur.(data := cur.data[..|cur.data| - 1]) else cur
  }

  function OnLine(p: Pending, line: string): (Pending, seq<Event>) {
    if line != [] then (Pending(Field(p.cur, line), true), [])
    else if p.dirty then (FRESH, [Dispatch(p.cur)])
    else (p, [])
  }

  function OnLines(p: Pending, lines: seq<string>): (Pending, seq<Event>)
    decreases |lines|
  {
    if lines == [] then (p, []) else
      var (p', first) := OnLine(p, lines[0]);
      var (end, rest) := OnLines(p', lines[1..]);
      (end, first + rest)
  }

  lemma {:induction false} OnLinesConcat(p: Pending, a: seq<string>, b: seq<string>)
    ensures var (q, first) := OnLines(p, a); var (r, rest) := OnLines(q, b);
            OnLines(p, a + b) == (r, first + rest)
    decreases |a|
  {
    if a == [] {
      assert a + b == b;
      assert [] + OnLines(p, b).1 == OnLines(p, b).1;
    } else {
      assert (a + b)[0] == a[0] && (a + b)[1..] == a[1..] + b;
      var (p', first) := OnLine(p, a[0]);
      OnLinesConcat(p', a[1..], b);
      var (q, more) := OnLines(p', a[1..]);
      Assoc(first, more, OnLines(q, b).1);
    }
  }

  lemma QuietLine(p: Pending, lines: seq<string>)
    requires lines != [] && lines[0] != []
    ensures OnLines(p, lines) == OnLines(Pending(Field(p.cur, lines[0]), true), lines[1..])
  {
    var rest := OnLines(Pending(Field(p.cur, lines[0]), true), lines[1..]).1;
    assert [] + rest == rest;
  }

  // ---- field by field ---------------------------------------------------------------------------

  lemma {:induction false} SplitAtColon(name: string, value: string)
    requires ':' !in name
    ensures SplitColon(name + ([':'] + value)) == Some((name, value))
  {
    var s := name + ([':'] + value);
    if name == [] {
      assert s == [':'] + value;
    } else {
      HeadTail(name);
      assert s[0] == name[0] && s[1..] == name[1..] + ([':'] + value);
      SplitAtColon(name[1..], value);
    }
  }

  lemma FieldReads(cur: Event, name: string, value: string)
    requires name != [] && ':' !in name
    ensures Field(cur, FieldLine(name, value)) == SetField(cur, name, value)
  {
    var line := FieldLine(name, value);
    assert [':', ' '] + value == [':'] + ([' '] + value);
    SplitAtColon(name, [' '] + value);
    assert line[0] == name[0] && name[0] in name;
    assert ([' '] + value)[1..] == value;
  }

  /** The other spellings: without the space, and without the colon. Only one space is the separator's. */
  lemma FieldSpellings(cur: Event, name: string, value: string)
    requires name != [] && ':' !in name
    ensures value == [] || value[0] != ' ' ==>
            Field(cur, name + ([':'] + value)) == Field(cur, FieldLine(name, value))
    ensures Field(cur, name) == Field(cur, name + [':']) == Field(cur, FieldLine(name, []))
  {
    FieldReads(cur, name, value);
    FieldReads(cur, name, []);
    SplitAtColon(name, value);
    SplitAtColon(name, []);
    NoColon(name);
    assert [':'] + [] == [':'];
    assert name[0] in name && (name + ([':'] + value))[0] == name[0] && (name + [':'])[0] == name[0];
  }

  lemma {:induction false} NoColon(s: string)
    requires ':' !in s
    ensures SplitColon(s) == None
  {
    if s != [] {
      assert s[0] in s;
      NoColon(s[1..]);
    }
  }

  /** Fields of other names, and a retry that is no number, change nothing. */
  lemma OthersIgnored(cur: Event, name: string, value: string)
    requires name != [] && ':' !in name
    requires name !in {DATA, EVENT, ID, RETRY} || (name == RETRY && ParseU64(value).None?)
    ensures Field(cur, FieldLine(name, value)) == cur
  {
    FieldReads(cur, name, value);
  }

  /** A comment may leave out its space as well. */
  lemma CommentSpellings(cur: Event, text: string)
    requires text == [] || text[0] != ' '
    ensures Field(cur, [':'] + text) == Field(cur, FieldLine([], text))
  {
    CommentReads(cur, text);
    assert ([':'] + text)[1..] == text;
  }

  lemma CommentReads(cur: Event, value: string)
    ensures Field(cur, FieldLine([], value)) == cur.(comment := Some(AddComment(cur.comment, value)))
  {
    var line := FieldLine([], value);
    assert line == [':', ' '] + value;
    assert line[1..] == [' '] + value && ([' '] + value)[1..] == value;
  }

  lemma StripField(name: string, value: string)
    ensures StripCr(FieldLine(name, value)) == FieldLine(name, StripCr(value)) != []
  {
    var line := FieldLine(name, value);
    if value == [] {
      assert line[|line| - 1] == ' ';
    } else {
      assert line[|line| - 1] == value[|value| - 1];
      if EndsCr(value) { assert line[..|line| - 1] == FieldLine(name, value[..|value| - 1]); }
    }
  }

  lemma {:induction false} StripConcat(a: seq<string>, b: seq<string>)
    ensures StripAll(a + b) == StripAll(a) + StripAll(b)
  {
    if a == [] {
      assert a + b == b;
    } else {
      assert (a + b)[0] == a[0] && (a + b)[1..] == a[1..] + b;
      StripConcat(a[1..], b);
    }
  }

  lemma {:induction false} StripFields(name: string, values: seq<string>)
    ensures StripAll(FieldLines(name, values)) == FieldLines(name, StripAll(values))
  {
    if values != [] {
      StripField(name, values[0]);
      StripFields(name, values[1..]);
      assert FieldLines(name, values)[1..] == FieldLines(name, values[1..]);
      assert StripAll(values)[1..] == StripAll(values[1..]);
    }
  }

  /** The comment the decoder builds: an empty beginning leaves no line feed behind. */
  function Comments(comment: Option<string>, texts: seq<string>): Option<string>
    decreases |texts|
  {
    if texts == [] then comment else Comments(Some(AddComment(comment, texts[0])), texts[1..])
  }

  lemma {:induction false} CommentLinesRead(cur: Event, dirty: bool, texts: seq<string>)
    ensures OnLines(Pending(cur, dirty), FieldLines([], texts)) ==
            (Pending(cur.(comment := Comments(cur.comment, texts)), dirty || texts != []), [])
    decreases |texts|
  {
    if texts != [] {
      var lines := FieldLines([], texts);
      assert lines[0] == FieldLine([], texts[0]) && lines[1..] == FieldLines([], texts[1..]);
      CommentReads(cur, texts[0]);
      QuietLine(Pending(cur, dirty), lines);
      CommentLinesRead(cur.(comment := Some(AddComment(cur.comment, texts[0]))), true, texts[1..]);
    }
  }

  lemma {:induction false} DataLinesRead(cur: Event, dirty: bool, texts: seq<string>)
    ensures OnLines(Pending(cur, dirty), FieldLines(DATA, texts)) ==
            (Pending(cur.(data := cur.data + Unlines(texts)), dirty || texts != []), [])
    decreases |texts|
  {
    if texts == [] {
      assert cur.data + [] == cur.data;
    } else {
      var lines := FieldLines(DATA, texts);
      assert lines[0] == FieldLine(DATA, texts[0]) && lines[1..] == FieldLines(DATA, texts[1..]);
      FieldReads(cur, DATA, texts[0]);
      QuietLine(Pending(cur, dirty), lines);
      DataLinesRead(cur.(data := cur.data + texts[0] + ['\n']), true, texts[1..]);
      Assoc(cur.data, texts[0], ['\n']);
      Assoc(cur.data, texts[0] + ['\n'], Unlines(texts[1..]));
    }
  }

  lemma OneLineReads(cur: Event, dirty: bool, name: string, value: string)
    requires name != [] && ':' !in name
    ensures OnLines(Pending(cur, dirty), [FieldLine(name, value)]) == (Pending(SetField(cur, name, value), true), [])
  {
    FieldReads(cur, name, value);
    QuietLine(Pending(cur, dirty), [FieldLine(name, value)]);
  }

  lemma {:induction false} UnlinesIsJoin(ls: seq<string>)
    requires ls != []
    ensures Unlines(ls) == JoinLines(ls) + ['\n']
  {
    if |ls| == 1 {
      assert ls[1..] == [];
      assert ls[0] + ['\n'] + [] == ls[0] + ['\n'];
    } else {
      UnlinesIsJoin(ls[1..]);
      Assoc(ls[0] + ['\n'], JoinLines(ls[1..]), ['\n']);
    }
  }

  // ---- frames as text ---------------------------------------------------------------------------

  lemma OneLineAlone(s: string)
    requires OneLine(s)
    ensures SplitLines(s) == [s]
    decreases |s|
  {
    if s != [] {
      assert s[0] in s;
      OneLineAlone(s[1..]);
      HeadTail(s);
    }
  }

  lemma {:induction false} UnlinesConcat(a: seq<string>, b: seq<string>)
    ensures Unlines(a + b) == Unlines(a) + Unlines(b)
    decreases |a|
  {
    if a == [] {
      assert a + b == b;
    } else {
      assert (a + b)[0] == a[0] && (a + b)[1..] == a[1..] + b;
      UnlinesConcat(a[1..], b);
      Assoc(a[0] + ['\n'], Unlines(a[1..]), Unlines(b));
    }
  }

  lemma OneOf(s: string)
    ensures Unlines([s]) == s + ['\n']
  {
    assert [s][1..] == [] && s + ['\n'] + [] == s + ['\n'];
  }

  lemma PlainFrame(ls: seq<string>, e: Event)
    requires FrameLines(e) == ls + [[]]
    ensures ToFrame(e) == Unlines(ls) + ['\n']
  {
    UnlinesConcat(ls, [[]]);
    OneOf([]);
    assert [] + ['\n'] == ['\n'];
  }

  /** A comment alone, as a keep-alive, has no data field; neither has a type alone; but an event of nothing has one. */
  lemma FrameTexts(s: string)
    requires OneLine(s)
    ensures ToFrame(Event([], None, None, None, Some(s))) == ": " + s + "\n" + "\n"
    ensures ToFrame(Event([], Some(s), None, None, None)) == "event: " + s + "\n" + "\n"
    ensures ToFrame(Event(s, None, None, None, None)) == "data: " + s + "\n" + "\n"
    ensures ToFrame(Event(s, None, Some(s), None, None)) == "id: " + s + "\n" + ("data: " + s + "\n") + "\n"
  {
    OneLineAlone(s);
    var comment, kind, id, data := FieldLine([], s), FieldLine(EVENT, s), FieldLine(ID, s), FieldLine(DATA, s);
    assert FieldLines([], [s]) == [comment] && FieldLines(DATA, [s]) == [data] by { assert [s][1..] == []; }
    assert comment == ": " + s && kind == "event: " + s && id == "id: " + s && data == "data: " + s;
    var a, b := Event([], None, None, None, Some(s)), Event([], Some(s), None, None, None);
    var c, d := Event(s, None, None, None, None), Event(s, None, Some(s), None, None);
    assert FrameLines(a) == [comment] + [[]] && FrameLines(b) == [kind] + [[]];
    assert FrameLines(c) == [data] + [[]] && FrameLines(d) == [id] + [data] + [[]];
    PlainFrame([comment], a);
    PlainFrame([kind], b);
    PlainFrame([data], c);
    PlainFrame([id] + [data], d);
    UnlinesConcat([id], [data]);
    OneOf(comment);
    OneOf(kind);
    OneOf(id);
    OneOf(data);
  }
}
