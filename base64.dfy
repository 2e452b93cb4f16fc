// base64UrlEncode (auth.js:35-40): btoa over the bytes, then '+' -> '-',
// '/' -> '_' and the trailing '=' padding removed. btoa is the base64
// encoding of section 4 of RFC 4648; the result is the unpadded base64url
// form of section 5 of RFC 4648.

module Base64 {
  import opened Text

  type Byte = b: int | 0 <= b < 256

  /** The standard base64 alphabet (RFC 4648, section 4). */
  predicate IsStdChar(c: char) {
    ('A' <= c <= 'Z') || ('a' <= c <= 'z') || ('0' <= c <= '9') || c == '+' || c == '/'
  }

  /** The URL- and filename-safe alphabet (RFC 4648, section 5). */
  predicate IsUrlChar(c: char) {
    ('A' <= c <= 'Z') || ('a' <= c <= 'z') || ('0' <= c <= '9') || c == '-' || c == '_'
  }

  /** The character for a 6-bit group. */
  function Sextet(i: int): (c: char)
    requires 0 <= i < 64
    ensures IsStdChar(c)
  {
    if i < 26 then ('A' as int + i) as char
    else if i < 52 then ('a' as int + i - 26) as char
    else if i < 62 then ('0' as int + i - 52) as char
    else if i == 62 then '+'
    else '/'
  }

  /** The base64 characters of `b` before padding: four per three bytes, then two or three for a tail. */
  function Body(b: seq<Byte>): (r: string)
    ensures |r| == 4 * (|b| / 3) + (if |b| % 3 == 0 then 0 else |b| % 3 + 1)
    ensures forall i :: 0 <= i < |r| ==> IsStdChar(r[i])
    decreases |b|
  {
    if |b| >= 3 then
      [Sextet(b[0] / 4), Sextet((b[0] % 4) * 16 + b[1] / 16), Sextet((b[1] % 16) * 4 + b[2] / 64), Sextet(b[2] % 64)]
      + Body(b[3..])
    else if |b| == 2 then
      [Sextet(b[0] / 4), Sextet((b[0] % 4) * 16 + b[1] / 16), Sextet((b[1] % 16) * 4)]
    else if |b| == 1 then
      [Sextet(b[0] / 4), Sextet((b[0] % 4) * 16)]
    else
      []
  }

  /** The '=' padding that brings the output to a multiple of four characters. */
  function Padding(n: nat): string {
    if n % 3 == 1 then "==" else if n % 3 == 2 then "=" else ""
  }

  /** btoa over the bytes (RFC 4648, section 4). */
  function Btoa(b: seq<Byte>): string {
    Body(b) + Padding(|b|)
  }

  /** `.replace(/=+$/, "")`: the run of '=' at the end is removed. */
  function StripPadding(s: string): (r: string)
    ensures |r| <= |s| && r == s[..|r|]
    ensures forall i :: |r| <= i < |s| ==> s[i] == '='
    ensures r == [] || r[|r| - 1] != '='
  {
    if s != [] && s[|s| - 1] == '=' then StripPadding(s[..|s| - 1]) else s
  }

  /** The two global replaces of base64UrlEncode. */
  function Translate(t: string): string {
    ReplaceChar(ReplaceChar(t, '+', "-"), '/', "_")
  }

  /** base64UrlEncode's post-processing of a base64 text. */
  function UrlFromBase64(t: string): string {
    StripPadding(Translate(t))
  }

  /** base64UrlEncode(bytes). */
  function Base64UrlEncode(b: seq<Byte>): string {
    UrlFromBase64(Btoa(b))
  }

  /** Independent reference: the character-by-character alphabet swap of section 5 of RFC 4648. */
  function UrlChar(c: char): (r: char)
    ensures IsStdChar(c) ==> IsUrlChar(r)
  {
    if c == '+' then '-' else if c == '/' then '_' else c
  }

  function MapUrlChars(t: string): (r: string)
    ensures |r| == |t|
    ensures forall i :: 0 <= i < |t| ==> r[i] == UrlChar(t[i])
  {
    if t == [] then [] else [UrlChar(t[0])] + MapUrlChars(t[1..])
  }

  /** The two replaces together swap the alphabet character by character. */
  lemma {:induction false} TranslateIsMap(t: string)
    ensures Translate(t) == MapUrlChars(t)
  {
    if t != [] {
      TranslateIsMap(t[1..]);
      var h := if t[0] == '+' then '-' else t[0];
      var x := ReplaceChar(t[1..], '+', "-");
      assert ReplaceChar(t, '+', "-") == [h] + x;
      ReplaceCharAppend([h], x, '/', "_");
      assert [h][1..] == [];
      assert ReplaceChar([h], '/', "_") == [UrlChar(t[0])];
    }
  }

  /** Stripping undoes padding appended after text that does not end in '='. */
  lemma {:induction false} StripPaddingOfPadded(x: string, p: string)
    requires x == [] || x[|x| - 1] != '='
    requires forall i :: 0 <= i < |p| ==> p[i] == '='
    ensures StripPadding(x + p) == x
    decreases |p|
  {
    if p == [] {
      assert x + p == x;
    } else {
      var q := p[..|p| - 1];
      assert (x + p)[..|x + p| - 1] == x + q;
      StripPaddingOfPadded(x, q);
    }
  }

  /**
   * base64UrlEncode's output is the base64 text with '+' and '/' swapped for
   * '-' and '_' and the trailing '=' run cut: it keeps a prefix of the
   * swapped text, all that is cut is '=', and no '+', '/' or final '=' is left.
   */
  lemma UrlFromBase64Shape(t: string)
    ensures var r := UrlFromBase64(t);
      && |r| <= |t| && r == MapUrlChars(t)[..|r|]
      && (forall i :: |r| <= i < |t| ==> MapUrlChars(t)[i] == '=')
      && '+' !in r && '/' !in r
      && (r == [] || r[|r| - 1] != '=')
  {
    TranslateIsMap(t);
    var r := UrlFromBase64(t);
    var m := MapUrlChars(t);
    forall i | 0 <= i < |r| ensures r[i] != '+' && r[i] != '/' {
      assert r[i] == m[i];
    }
  }

  /** Padding is untouched by the alphabet swap. */
  lemma TranslatePadded(body: string, pad: string)
    requires '+' !in pad && '/' !in pad
    ensures Translate(body + pad) == Translate(body) + pad
  {
    ReplaceCharAppend(body, pad, '+', "-");
    ReplaceCharAbsent(pad, '+', "-");
    ReplaceCharAppend(ReplaceChar(body, '+', "-"), pad, '/', "_");
    ReplaceCharAbsent(pad, '/', "_");
  }

  lemma BodyLength(n: nat)
    ensures 4 * (n / 3) + (if n % 3 == 0 then 0 else n % 3 + 1) == (4 * n + 2) / 3
  {
  }

  /** On bytes, the padding run is exactly what is stripped: the result is the swapped unpadded base64 text. */
  lemma Base64UrlEncodeIsMap(b: seq<Byte>)
    ensures Base64UrlEncode(b) == MapUrlChars(Body(b))
  {
    var body := Body(b);
    var pad := Padding(|b|);
    assert forall i :: 0 <= i < |pad| ==> pad[i] == '=';
    assert Btoa(b) == body + pad;
    TranslatePadded(body, pad);
    TranslateIsMap(body);
    var m := MapUrlChars(body);
    assert Translate(Btoa(b)) == m + pad;
    assert m == [] || m[|m| - 1] != '=' by {
      if m != [] {
        assert IsStdChar(body[|body| - 1]);
      }
    }
    StripPaddingOfPadded(m, pad);
  }

  /** On bytes, the result is exactly the swapped unpadded base64 text: (4n+2)/3 characters of the URL-safe alphabet. */
  lemma Base64UrlEncodeShape(b: seq<Byte>)
    ensures Base64UrlEncode(b) == MapUrlChars(Body(b))
    ensures |Base64UrlEncode(b)| == (4 * |b| + 2) / 3
    ensures forall i :: 0 <= i < |Base64UrlEncode(b)| ==> IsUrlChar(Base64UrlEncode(b)[i])
  {
    Base64UrlEncodeIsMap(b);
    var body := Body(b);
    var m := MapUrlChars(body);
    BodyLength(|b|);
    assert |m| == (4 * |b| + 2) / 3;
    assert forall i :: 0 <= i < |m| ==> IsUrlChar(m[i]) by {
      forall i | 0 <= i < |m| ensures IsUrlChar(m[i]) {
        assert m[i] == UrlChar(body[i]) && IsStdChar(body[i]);
      }
    }
  }
}
