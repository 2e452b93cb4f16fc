// The escapeHtml helper that app.js (115-122) and dashboard.js (49-56) both
// define: five chained replaceAll calls, '&' first.

module Html {
  import opened Text

  /** The characters escapeHtml rewrites. */
  predicate IsSpecial(c: char) {
    c == '&' || c == '<' || c == '>' || c == '"' || c == '\''
  }

  /** The entity each special character becomes; other characters stay. */
  function EscapeChar(c: char): (r: string)
    ensures IsSpecial(c) ==> |r| >= 4 && r[0] == '&' && forall i :: 1 <= i < |r| ==> !IsSpecial(r[i])
    ensures !IsSpecial(c) ==> r == [c]
  {
    if c == '&' then "&amp;"
    else if c == '<' then "&lt;"
    else if c == '>' then "&gt;"
    else if c == '"' then "&quot;"
    else if c == '\'' then "&#039;"
    else [c]
  }

  /** escapeHtml's body as written: replaceAll of '&', '<', '>', '"' and '\'' in that order. */
  function EscapeText(s: string): string {
    var a := ReplaceChar(s, '&', "&amp;");
    var b := ReplaceChar(a, '<', "&lt;");
    var c := ReplaceChar(b, '>', "&gt;");
    var d := ReplaceChar(c, '"', "&quot;");
    ReplaceChar(d, '\'', "&#039;")
  }

  /** Escaping character by character. */
  function EscapeEach(s: string): string {
    if s == [] then [] else EscapeChar(s[0]) + EscapeEach(s[1..])
  }

  lemma {:induction false} EscapeTextAppend(x: string, y: string)
    ensures EscapeText(x + y) == EscapeText(x) + EscapeText(y)
  {
    var a1, a2 := ReplaceChar(x, '&', "&amp;"), ReplaceChar(y, '&', "&amp;");
    ReplaceCharAppend(x, y, '&', "&amp;");
    var b1, b2 := ReplaceChar(a1, '<', "&lt;"), ReplaceChar(a2, '<', "&lt;");
    ReplaceCharAppend(a1, a2, '<', "&lt;");
    var c1, c2 := ReplaceChar(b1, '>', "&gt;"), ReplaceChar(b2, '>', "&gt;");
    ReplaceCharAppend(b1, b2, '>', "&gt;");
    var d1, d2 := ReplaceChar(c1, '"', "&quot;"), ReplaceChar(c2, '"', "&quot;");
    ReplaceCharAppend(c1, c2, '"', "&quot;");
    ReplaceCharAppend(d1, d2, '\'', "&#039;");
  }

  lemma ReplaceSingle(x: char, c: char, rep: string)
    ensures ReplaceChar([x], c, rep) == if x == c then rep else [x]
  {
    assert [x][1..] == [];
  }

  /** Once the first stage has produced text without '<', '>', '"' or '\'', the later stages keep it. */
  lemma LaterStagesKeep(s: string, a: string)
    requires a == ReplaceChar(s, '&', "&amp;")
    requires '<' !in a && '>' !in a && '"' !in a && '\'' !in a
    ensures EscapeText(s) == a
  {
    ReplaceCharAbsent(a, '<', "&lt;");
    ReplaceCharAbsent(a, '>', "&gt;");
    ReplaceCharAbsent(a, '"', "&quot;");
    ReplaceCharAbsent(a, '\'', "&#039;");
  }

  lemma ChainAfterAmp()
    ensures EscapeText("&") == "&amp;"
  {
    ReplaceSingle('&', '&', "&amp;");
    LaterStagesKeep("&", "&amp;");
  }

  /** Once the second stage has produced text without '>', '"' or '\'', the later stages keep it. */
  lemma SecondStageKeeps(s: string, b: string)
    requires b == ReplaceChar(ReplaceChar(s, '&', "&amp;"), '<', "&lt;")
    requires '>' !in b && '"' !in b && '\'' !in b
    ensures EscapeText(s) == b
  {
    ReplaceCharAbsent(b, '>', "&gt;");
    ReplaceCharAbsent(b, '"', "&quot;");
    ReplaceCharAbsent(b, '\'', "&#039;");
  }

  lemma ChainAfterLt()
    ensures EscapeText("<") == "&lt;"
  {
    ReplaceSingle('<', '&', "&amp;");
    ReplaceSingle('<', '<', "&lt;");
    SecondStageKeeps("<", "&lt;");
  }

  /** Once the third stage has produced text without '"' or '\'', the later stages keep it. */
  lemma ThirdStageKeeps(s: string, c: string)
    requires c == ReplaceChar(ReplaceChar(ReplaceChar(s, '&', "&amp;"), '<', "&lt;"), '>', "&gt;")
    requires '"' !in c && '\'' !in c
    ensures EscapeText(s) == c
  {
    ReplaceCharAbsent(c, '"', "&quot;");
    ReplaceCharAbsent(c, '\'', "&#039;");
  }

  lemma ChainAfterGt()
    ensures EscapeText(">") == "&gt;"
  {
    ReplaceSingle('>', '&', "&amp;");
    ReplaceSingle('>', '<', "&lt;");
    ReplaceSingle('>', '>', "&gt;");
    ThirdStageKeeps(">", "&gt;");
  }

  lemma ChainAfterQuot()
    ensures EscapeText("\"") == "&quot;"
  {
    ReplaceSingle('"', '&', "&amp;");
    ReplaceSingle('"', '<', "&lt;");
    ReplaceSingle('"', '>', "&gt;");
    ReplaceSingle('"', '"', "&quot;");
    ReplaceCharAbsent("&quot;", '\'', "&#039;");
  }

  lemma ChainAfterApos()
    ensures EscapeText("'") == "&#039;"
  {
    ReplaceSingle('\'', '&', "&amp;");
    ReplaceSingle('\'', '<', "&lt;");
    ReplaceSingle('\'', '>', "&gt;");
    ReplaceSingle('\'', '"', "&quot;");
    ReplaceSingle('\'', '\'', "&#039;");
  }

  lemma ChainPlain(x: char)
    requires !IsSpecial(x)
    ensures EscapeText([x]) == [x]
  {
    ReplaceSingle(x, '&', "&amp;");
    ReplaceSingle(x, '<', "&lt;");
    ReplaceSingle(x, '>', "&gt;");
    ReplaceSingle(x, '"', "&quot;");
    ReplaceSingle(x, '\'', "&#039;");
  }

  /** On one character the chain produces that character's entity: no later replacement touches an earlier one's output. */
  lemma EscapeTextChar(x: char)
    ensures EscapeText([x]) == EscapeChar(x)
  {
    if x == '&' {
      ChainAfterAmp();
    } else if x == '<' {
      ChainAfterLt();
    } else if x == '>' {
      ChainAfterGt();
    } else if x == '"' {
      ChainAfterQuot();
    } else if x == '\'' {
      ChainAfterApos();
    } else {
      ChainPlain(x);
    }
  }

  /** Because '&' is replaced first, the chain equals escaping each character on its own. */
  lemma {:induction false} EscapeTextIsPerChar(s: string)
    ensures EscapeText(s) == EscapeEach(s)
  {
    if s == [] {
      ReplaceCharAbsent(s, '&', "&amp;");
    } else {
      assert s == [s[0]] + s[1..];
      EscapeTextAppend([s[0]], s[1..]);
      EscapeTextChar(s[0]);
      EscapeTextIsPerChar(s[1..]);
    }
  }

  /** The escaped text holds none of '<', '>', '"' and '\''. */
  lemma {:induction false} EscapeEachNoMarkup(s: string)
    ensures forall i :: 0 <= i < |EscapeEach(s)| ==> EscapeEach(s)[i] == '&' || !IsSpecial(EscapeEach(s)[i])
  {
    if s != [] {
      EscapeEachNoMarkup(s[1..]);
      var h, t := EscapeChar(s[0]), EscapeEach(s[1..]);
      assert EscapeEach(s) == h + t;
      forall i | 0 <= i < |h + t| ensures (h + t)[i] == '&' || !IsSpecial((h + t)[i]) {
        if i >= |h| {
          assert (h + t)[i] == t[i - |h|];
        }
      }
    }
  }

  /** One of the five entities starts at position i of r. */
  predicate EntityAt(r: string, i: nat)
    requires i <= |r|
  {
    var t := r[i..];
    StartsWith(t, "&amp;") || StartsWith(t, "&lt;") || StartsWith(t, "&gt;")
    || StartsWith(t, "&quot;") || StartsWith(t, "&#039;")
  }

  lemma EntityAtPrefix(h: string, t: string)
    requires |h| >= 4 && h[0] == '&' && (h == "&amp;" || h == "&lt;" || h == "&gt;" || h == "&quot;" || h == "&#039;")
    ensures EntityAt(h + t, 0)
  {
    assert (h + t)[0..][..|h|] == h;
  }

  lemma EntityAtShift(h: string, t: string, i: nat)
    requires |h| <= i <= |h + t|
    ensures EntityAt(h + t, i) == EntityAt(t, i - |h|)
  {
    assert (h + t)[i..] == t[i - |h|..];
  }

  /** Every '&' in escaped text begins one of the five entities. */
  lemma {:induction false} EscapeEachAmpersands(s: string)
    ensures forall i :: 0 <= i < |EscapeEach(s)| && EscapeEach(s)[i] == '&' ==> EntityAt(EscapeEach(s), i)
  {
    if s != [] {
      EscapeEachAmpersands(s[1..]);
      var h, t := EscapeChar(s[0]), EscapeEach(s[1..]);
      assert EscapeEach(s) == h + t;
      forall i | 0 <= i < |h + t| && (h + t)[i] == '&' ensures EntityAt(h + t, i) {
        if i < |h| {
          assert (h + t)[i] == h[i];
          if IsSpecial(s[0]) {
            assert i == 0;
            EntityAtPrefix(h, t);
          }
        } else {
          assert (h + t)[i] == t[i - |h|];
          EntityAtShift(h, t, i);
        }
      }
    }
  }

  /** Decodes the five entities escapeHtml produces; any other character is copied. */
  function Unescape(s: string): string
    decreases |s|
  {
    if s == [] then []
    else if StartsWith(s, "&amp;") then "&" + Unescape(s[5..])
    else if StartsWith(s, "&lt;") then "<" + Unescape(s[4..])
    else if StartsWith(s, "&gt;") then ">" + Unescape(s[4..])
    else if StartsWith(s, "&quot;") then "\"" + Unescape(s[6..])
    else if StartsWith(s, "&#039;") then "'" + Unescape(s[6..])
    else [s[0]] + Unescape(s[1..])
  }

  /** A text differing from a prefix at position k does not start with it. */
  lemma NotStartsAt(s: string, p: string, k: nat)
    requires k < |p| && (k >= |s| || s[k] != p[k])
    ensures !StartsWith(s, p)
  {
    if |p| <= |s| {
      assert s[..|p|][k] == s[k];
    }
  }

  /** A text starts with whatever was put in front of it. */
  lemma StartsWithFront(h: string, t: string)
    ensures StartsWith(h + t, h)
  {
    assert (h + t)[..|h|] == h;
  }

  /** Decoding reads an entity back off the front. */
  lemma UnescapeEntity(c: char, t: string)
    requires IsSpecial(c)
    ensures Unescape(EscapeChar(c) + t) == [c] + Unescape(t)
  {
    var h := EscapeChar(c);
    var e := h + t;
    assert e[|h|..] == t;
    StartsWithFront(h, t);
    assert e[0] == '&' && e[1] == h[1] && e[2] == h[2];
    if c != '&' {
      NotStartsAt(e, "&amp;", 1);
      if c != '<' {
        NotStartsAt(e, "&lt;", 1);
        if c != '>' {
          NotStartsAt(e, "&gt;", 1);
          if c != '"' {
            NotStartsAt(e, "&quot;", 1);
          }
        }
      }
    }
  }

  /** Decoding copies a plain character. */
  lemma UnescapePlain(c: char, t: string)
    requires !IsSpecial(c)
    ensures Unescape(EscapeChar(c) + t) == [c] + Unescape(t)
  {
    var e := [c] + t;
    assert e[0] == c && e[1..] == t;
    NotStartsAt(e, "&amp;", 0);
    NotStartsAt(e, "&lt;", 0);
    NotStartsAt(e, "&gt;", 0);
    NotStartsAt(e, "&quot;", 0);
    NotStartsAt(e, "&#039;", 0);
  }

  /** Decoding the escaped text gives back the original text, so no two texts escape alike. */
  lemma {:induction false} UnescapeEscapeEach(s: string)
    ensures Unescape(EscapeEach(s)) == s
  {
    if s != [] {
      UnescapeEscapeEach(s[1..]);
      if IsSpecial(s[0]) {
        UnescapeEntity(s[0], EscapeEach(s[1..]));
      } else {
        UnescapePlain(s[0], EscapeEach(s[1..]));
      }
      assert s == [s[0]] + s[1..];
    }
  }

  /** escapeHtml's text, decoded, is the input text. */
  lemma UnescapeEscapeText(s: string)
    ensures Unescape(EscapeText(s)) == s
  {
    EscapeTextIsPerChar(s);
    UnescapeEscapeEach(s);
  }

  /** escapeHtml's text holds no markup character, and each '&' in it opens an entity. */
  lemma EscapeTextSafe(s: string)
    ensures forall i :: 0 <= i < |EscapeText(s)| ==> EscapeText(s)[i] == '&' || !IsSpecial(EscapeText(s)[i])
    ensures forall i :: 0 <= i < |EscapeText(s)| && EscapeText(s)[i] == '&' ==> EntityAt(EscapeText(s), i)
  {
    EscapeTextIsPerChar(s);
    EscapeEachNoMarkup(s);
    EscapeEachAmpersands(s);
  }
}
