/** Key lines of the YAML codec: the key comes back exactly when it has no ": " in it. */
module YamlKeys {
  import opened Wrappers
  import opened Seqs
  import opened Text
  import opened Values
  import opened YamlEncode
  import opened YamlParse
  import opened YamlLexical

  lemma TrimAfterSpace(t: string)
    requires IsTight(t)
    ensures Trim(" " + t) == t && TrimStart(" " + t) == t
  {
    Parts(" ", t);
    assert IsWhitespace(' ');
    TrimTight(t);
    assert TrimStart(" " + t) == TrimStart(t);
  }

  lemma KeyAt(t: string, tail: string, k: string)
    requires ColonAt(t + (":" + tail)) == Some(|t|) && IsTight(t) && Unquote(t) == k
    ensures MappingKey(t + (":" + tail)) == Some((k, Trim(tail)))
  {
    Parts(t, ":" + tail);
    Assoc(t, ":", tail);
    Parts(t + ":", tail);
    TrimTight(t);
  }

  /** A safe key is read back, with what follows its colon. */
  lemma SafeKey(ft: FloatText, k: string, tail: string)
    requires !HasColonSpace(k) && (tail == [] || tail[0] == ' ')
    ensures MappingKey(StringText(ft, k) + (":" + tail)) == Some((k, Trim(tail)))
  {
    SafeColonAt(ft, k, tail, StringText(ft, k));
    StringTextReads(ft, k);
    KeyAt(StringText(ft, k), tail, k);
  }

  lemma SafeColonAt(ft: FloatText, k: string, tail: string, t: string)
    requires !HasColonSpace(k) && (tail == [] || tail[0] == ' ') && t == StringText(ft, k)
    ensures ColonAt(t + (":" + tail)) == Some(|t|)
  {
    SafeTextColon(ft, k, ":" + tail);
    assert ColonAt(":" + tail) == Some(0);
  }

  // ---- a key with ": " inside comes back as a different key -------------------------

  lemma {:induction false} EscapePrefix(p: string, i: nat)
    requires i <= |p|
    ensures Escape(p[..i]) <= Escape(p) && |Escape(p[..i])| >= i
    ensures |Escape(p)| >= |Escape(p[..i])| + |p| - i
  {
    if i == 0 {
      EscapeGrows(p);
      assert p[..0] == [];
    } else {
      EscapePrefix(p[1..], i - 1);
      EscapeOfFirst(p, i);
    }
  }

  lemma {:induction false} EscapeGrows(p: string)
    ensures |Escape(p)| >= |p|
  {
    if p != [] { EscapeGrows(p[1..]); }
  }

  /** Unescaping part of an escaped text gives no more than was escaped. */
  lemma {:induction false} UnescapePrefix(p: string, x: string)
    requires x <= Escape(p)
    ensures |Unescape(x)| <= |p|
  {
    if p != [] && x != [] {
      var e, t := EscapeChar(p[0]), Escape(p[1..]);
      if |x| >= |e| {
        Parts(e, t);
        assert x[|e|..] <= t by { assert x[|e|..] == (e + t)[|e|..|x|]; }
        UnescapePrefix(p[1..], x[|e|..]);
        assert x[0] == e[0];
        if |e| == 2 { assert x[1] == e[1]; }
      }
    }
  }

  /** The characters that escaping quotes and backslashes gives rise to. */
  predicate IsEscapeText(s: string) {
    forall i :: 0 <= i < |s| ==> s[i] in {'\"', '\\', 'n'}
  }

  lemma {:induction false} EscapeClosed(q: string)
    requires IsEscapeText(q)
    ensures IsEscapeText(Escape(q))
  {
    if q != [] { EscapeClosed(q[1..]); }
  }

  /** A string that is its own beginning escaped, after a quote, holds nothing else. */
  lemma {:induction false} OwnEscape(k: string, j: nat, i: nat)
    requires j < |k| && k[0] == '\"' && k[1..] <= Escape(k[..j]) && i <= j + 1
    ensures IsEscapeText(k[..i])
  {
    if i > 1 {
      OwnEscape(k, j, i - 1);
      var q, p := k[..i - 1], k[..j];
      assert p[..i - 1] == q;
      EscapePrefix(p, i - 1);
      EscapeClosed(q);
      assert k[i - 1] == k[1..][i - 2] == Escape(p)[i - 2] == Escape(q)[i - 2];
      assert k[..i] == q + [k[i - 1]];
    }
  }

  lemma OwnEscapeHasNoColon(k: string, j: nat)
    requires j < |k| && k[0] == '\"' && k[1..] <= Escape(k[..j])
    ensures k[j] != ':'
  {
    OwnEscape(k, j, j + 1);
    assert k[..j + 1][j] == k[j];
  }

  lemma TrimStartsTight(x: string)
    requires x != [] && !IsWhitespace(x[0])
    ensures var t := Trim(x); t != [] && t <= x && t[0] == x[0] && Trim(t) == t
  {
    var t := Trim(x);
    assert TrimStart(x) == x;
    TrimEndKeepsFirst(x);
    TrimEndIs(x);
  }

  lemma {:induction false} TrimEndKeepsFirst(x: string)
    requires x != [] && !IsWhitespace(x[0])
    ensures TrimEnd(x) != []
  {
    if IsWhitespace(x[|x| - 1]) {
      TrimEndKeepsFirst(x[..|x| - 1]);
    }
  }

  lemma InsideIsPrefix(x: string, t: string, e: string)
    requires x == "\"" + e && t <= x && |t| >= 2
    ensures t[1..|t| - 1] <= e
  {
    Parts("\"", e);
    assert t[1..|t| - 1] == x[1..][..|t| - 2];
  }

  /** What `mapping_key` makes of the part of a quoted key before its own ": " is another key. */
  lemma CutKeyDiffers(k: string, j: nat)
    requires j < |k| && k[j] == ':'
    ensures Unquote(Trim("\"" + Escape(k[..j]))) != k
  {
    var x := "\"" + Escape(k[..j]);
    TrimStartsTight(x);
    CutTextDiffers(k, j, x, Trim(x));
  }

  lemma CutTextDiffers(k: string, j: nat, x: string, t: string)
    requires j < |k| && k[j] == ':' && x == "\"" + Escape(k[..j]) && t != [] && t <= x && t[0] == x[0]
    ensures UnquoteTight(t) != k
  {
    if IsWrapped(t, '\"') {
      InsideIsPrefix(x, t, Escape(k[..j]));
      UnescapePrefix(k[..j], t[1..|t| - 1]);
    } else {
      RestIsPrefix(x, t, Escape(k[..j]));
      if t == k { OwnEscapeHasNoColon(k, j); }
    }
  }

  lemma RestIsPrefix(x: string, t: string, e: string)
    requires x == "\"" + e && t != [] && t <= x
    ensures t[1..] <= e
  {
    Parts("\"", e);
    assert t[1..] == x[1..][..|t| - 1];
  }

  lemma {:induction false} TrimKeepsSolid(s: string, i: nat)
    requires i < |s| && !IsWhitespace(s[i])
    ensures Trim(s) != []
  {
    if IsWhitespace(s[0]) {
      TrimKeepsSolid(s[1..], i - 1);
    } else {
      TrimEndKeepsFirst(s);
    }
  }

  /** A quoted string cut in two inside its quotes. */
  lemma QuotedCut(k: string, j: nat, tail: string) returns (z: string)
    requires j < |k|
    ensures z != [] && Quoted(k) + tail == "\"" + Escape(k[..j]) + (z + ("\"" + tail))
  {
    EscapePrefix(k, j);
    var p := Escape(k[..j]);
    z := Escape(k)[|p|..];
    assert Escape(k) == p + z;
    QuotedSplits(k, tail);
    Assoc(p, z, "\"" + tail);
    Assoc("\"", p, z + ("\"" + tail));
  }

  lemma CutLine(x: string, z: string, tail: string)
    requires z != []
    ensures
      var line := x + (z + ("\"" + tail));
      |x| < |line| && line[..|x|] == x && Trim(line[|x| + 1..]) != []
  {
    var line := x + (z + ("\"" + tail));
    Parts(x, z + ("\"" + tail));
    var rest := line[|x| + 1..];
    assert rest[|z| - 1] == line[|x| + |z|] == '\"';
    TrimKeepsSolid(rest, |z| - 1);
  }

  /** An unsafe key is cut short: another key comes back, and the rest of the line is not empty. */
  lemma UnsafeKey(k: string, tail: string)
    requires HasColonSpace(k)
    ensures
      var m := MappingKey(Quoted(k) + (":" + tail));
      m.Some? && m.value.0 != k && m.value.1 != []
  {
    UnsafeTextColon(k, ":" + tail);
    var j := ColonSpaceAt(k).value;
    var z := QuotedCut(k, j, ":" + tail);
    CutLine("\"" + Escape(k[..j]), z, ":" + tail);
    CutKeyDiffers(k, j);
  }
}
