/** What decoding a frame gives, for every event, and exactly when it gives the event back. */
module SseRoundTrip {
  import opened Wrappers
  import opened Seqs
  import opened Decimal
  import opened SseEvent

  /** What an event comes back as when its type and id are single lines. */
  function Canon(e: Event): Event {
    Event(JoinLines(StripAll(SplitLines(e.data))),
          CanonText(e.event), CanonText(e.id), e.retry,
          match e.comment case Some(c) => Comments(None, StripAll(SplitLines(c))) case None => None)
  }

  function CanonText(t: Option<string>): Option<string> {
    match t case Some(s) => Some(StripCr(s)) case None => None
  }

  predicate SingleLines(e: Event) {
    (e.event.Some? ==> OneLine(e.event.value)) && (e.id.Some? ==> OneLine(e.id.value))
  }

  /** What a caller can check: type and id without line feeds, no text line that ends in a carriage return,
      and no line feed at the start of the comment. */
  predicate Clean(e: Event) {
    && SingleLines(e)
    && (e.event.Some? ==> !EndsCr(e.event.value))
    && (e.id.Some? ==> !EndsCr(e.id.value))
    && NoCr(e.data)
    && (e.comment.Some? ==> NoCr(e.comment.value) && (e.comment.value == [] || e.comment.value[0] != '\n'))
  }

  // ---- the parts of a frame, stripped and read in turn --------------------------------------------

  function Stripped(e: Event): seq<string> {
    StripAll(CommentLines(e)) + StripAll(OptionLine(EVENT, e.event)) + StripAll(OptionLine(ID, e.id))
    + StripAll(RetryLine(e)) + StripAll(DataLines(e)) + [[]]
  }

  lemma StripFrame(e: Event)
    ensures StripAll(FrameLines(e)) == Stripped(e)
  {
    var c, ev, id := CommentLines(e), OptionLine(EVENT, e.event), OptionLine(ID, e.id);
    var r, d := RetryLine(e), DataLines(e);
    StripConcat(c + ev + id + r + d, [[]]);
    StripConcat(c + ev + id + r, d);
    StripConcat(c + ev + id, r);
    StripConcat(c + ev, id);
    StripConcat(c, ev);
    assert StripAll([[]]) == [[]];
  }

  lemma CommentPart(e: Event)
    ensures OnLines(FRESH, StripAll(CommentLines(e))) ==
            (Pending(BLANK.(comment := Canon(e).comment), e.comment.Some?), [])
  {
    if e.comment.Some? {
      StripFields([], SplitLines(e.comment.value));
      CommentLinesRead(BLANK, false, StripAll(SplitLines(e.comment.value)));
    }
  }

  lemma StripOne(line: string)
    ensures StripAll([line]) == [StripCr(line)]
  {
    assert [line][1..] == [];
    assert StripAll([]) == [];
  }

  function WithOption(cur: Event, name: string, value: Option<string>): Event {
    if value.None? then cur
    else if name == EVENT then cur.(event := CanonText(value))
    else cur.(id := CanonText(value))
  }

  lemma OptionPart(p: Pending, name: string, value: Option<string>)
    requires name == EVENT || name == ID
    ensures OnLines(p, StripAll(OptionLine(name, value))) ==
            (Pending(WithOption(p.cur, name, value), p.dirty || value.Some?), [])
  {
    if value.Some? {
      StripOne(FieldLine(name, value.value));
      StripField(name, value.value);
      OneLineReads(p.cur, p.dirty, name, StripCr(value.value));
    }
  }

  lemma NumberReads(ms: u64)
    ensures ParseU64(IntText(ms)) == Some(ms) && !EndsCr(IntText(ms))
  {
    NumeralValue(ms);
  }

  lemma RetryPart(p: Pending, e: Event)
    ensures OnLines(p, StripAll(RetryLine(e))) ==
            (Pending(if e.retry.None? then p.cur else p.cur.(retry := e.retry), p.dirty || e.retry.Some?), [])
  {
    if e.retry.Some? {
      NumberReads(e.retry.value);
      StripOne(FieldLine(RETRY, IntText(e.retry.value)));
      StripField(RETRY, IntText(e.retry.value));
      OneLineReads(p.cur, p.dirty, RETRY, IntText(e.retry.value));
    }
  }

  /** The data, and the blank line that sends the event off. */
  lemma DataPart(p: Pending, e: Event)
    requires p.cur.data == [] && (p.dirty || HasData(e))
    ensures OnLines(p, StripAll(DataLines(e)) + [[]]) == (FRESH, [p.cur.(data := Canon(e).data)])
  {
    var lines := StripAll(DataLines(e));
    var texts := StripAll(SplitLines(e.data));
    if HasData(e) {
      StripFields(DATA, SplitLines(e.data));
      DataLinesRead(p.cur, p.dirty, texts);
      OnQuiet(p, lines, [[]]);
      assert [] + Unlines(texts) == Unlines(texts);
      UnlinesIsJoin(texts);
      BlankLine(Pending(p.cur.(data := Unlines(texts)), true));
      assert Unlines(texts)[..|Unlines(texts)| - 1] == JoinLines(texts);
    } else {
      assert SplitLines([]) == [[]];
      StripOne([]);
      BlankLine(p);
      OnQuiet(p, lines, [[]]);
    }
  }

  lemma BlankLine(p: Pending)
    requires p.dirty
    ensures OnLines(p, [[]]) == (FRESH, [Dispatch(p.cur)])
  {
    var lines: seq<string> := [[]];
    assert lines[1..] == [];
    assert [Dispatch(p.cur)] + [] == [Dispatch(p.cur)];
  }

  lemma OnQuiet(p: Pending, a: seq<string>, b: seq<string>)
    requires OnLines(p, a).1 == []
    ensures OnLines(p, a + b) == OnLines(OnLines(p, a).0, b)
  {
    OnLinesConcat(p, a, b);
    var rest := OnLines(OnLines(p, a).0, b).1;
    assert [] + rest == rest;
  }

  /** The lines of every frame decode to one event, whatever its fields hold. */
  lemma FrameReads(e: Event)
    ensures OnLines(FRESH, StripAll(FrameLines(e))) == (FRESH, [Canon(e)])
  {
    StripFrame(e);
    var c, ev := StripAll(CommentLines(e)), StripAll(OptionLine(EVENT, e.event));
    var id, r := StripAll(OptionLine(ID, e.id)), StripAll(RetryLine(e));
    var d := StripAll(DataLines(e)) + [[]];
    Assoc(c + ev + id + r, StripAll(DataLines(e)), [[]]);
    CommentPart(e);
    var p1 := OnLines(FRESH, c).0;
    OnQuiet(FRESH, c, ev);
    OptionPart(p1, EVENT, e.event);
    var p2 := OnLines(p1, ev).0;
    OnQuiet(FRESH, c + ev, id);
    OptionPart(p2, ID, e.id);
    var p3 := OnLines(p2, id).0;
    OnQuiet(FRESH, c + ev + id, r);
    RetryPart(p3, e);
    var p4 := OnLines(p3, r).0;
    OnQuiet(FRESH, c + ev + id + r, d);
    DataPart(p4, e);
  }

  // ---- when nothing changes -------------------------------------------------------------------------

  lemma {:induction false} StripShortens(ls: seq<string>)
    requires ls != []
    ensures |JoinLines(StripAll(ls))| <= |JoinLines(ls)|
    ensures (exists i :: 0 <= i < |ls| && EndsCr(ls[i])) ==> |JoinLines(StripAll(ls))| < |JoinLines(ls)|
    ensures (forall i :: 0 <= i < |ls| ==> !EndsCr(ls[i])) ==> StripAll(ls) == ls
  {
    HeadTail(ls);
    if |ls| > 1 {
      var rest := ls[1..];
      StripShortens(rest);
      assert StripAll(ls)[1..] == StripAll(rest);
      if i :| 1 <= i < |ls| && EndsCr(ls[i]) { assert rest[i - 1] == ls[i]; }
    }
  }

  lemma StripFixes(s: string)
    ensures JoinLines(StripAll(SplitLines(s))) == s <==> NoCr(s)
  {
    SplitJoins(s);
    StripShortens(SplitLines(s));
  }

  lemma {:induction false} CommentsShort(c: string, texts: seq<string>)
    requires texts != []
    ensures var r := Comments(Some(c), texts); r.Some? && |r.value| <= |c| + 1 + |JoinLines(texts)|
    ensures c == [] ==> |Comments(Some(c), texts).value| <= |JoinLines(texts)|
    ensures c != [] ==> Comments(Some(c), texts) == Some(c + ['\n'] + JoinLines(texts))
    decreases |texts|
  {
    var next := AddComment(Some(c), texts[0]);
    if |texts| > 1 {
      CommentsShort(next, texts[1..]);
      if c != [] {
        Assoc(c + ['\n'], texts[0], ['\n']);
        Assoc(c + ['\n'], texts[0] + ['\n'], JoinLines(texts[1..]));
      }
    }
  }

  lemma {:induction false} CommentFixes(c: string)
    ensures Comments(None, StripAll(SplitLines(c))) == Some(c) <==> NoCr(c) && (c == [] || c[0] != '\n')
  {
    var ls := SplitLines(c);
    var texts := StripAll(ls);
    SplitJoins(c);
    StripShortens(ls);
    assert texts[0] == StripCr(ls[0]);
    assert c != [] && c[0] == '\n' ==> |ls| > 1 && ls[0] == [];
    if |texts| > 1 {
      CommentsShort(texts[0], texts[1..]);
      assert |JoinLines(texts)| == |texts[0]| + 1 + |JoinLines(texts[1..])|;
    }
  }

  lemma CanonFixes(e: Event)
    ensures SingleLines(e) ==> (Canon(e) == e <==> Clean(e))
  {
    StripFixes(e.data);
    if e.comment.Some? { CommentFixes(e.comment.value); }
  }
}
