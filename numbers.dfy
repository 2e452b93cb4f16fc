// JavaScript number conversions used by the scripts: Number(string),
// Math.trunc, String(integer), the digit filter and en-GB thousands grouping.
// Numbers are exact reals; IEEE-754 rounding is not modelled.

module Numbers {
  import opened Text

  /** The outcome of Number(...): a finite value, NaN, or +Infinity / -Infinity. */
  datatype Number = Finite(v: real) | NaN | Infinite(positive: bool)

  /** The comparison n > bound; false for NaN, true for +Infinity, false for -Infinity. */
  predicate Exceeds(n: Number, bound: real) {
    match n
    case Finite(x) => x > bound
    case NaN => false
    case Infinite(positive) => positive
  }

  /** Math.trunc: rounds toward zero. */
  function Trunc(x: real): (r: int)
    ensures x >= 0.0 ==> r as real <= x < r as real + 1.0
    ensures x < 0.0 ==> r as real - 1.0 < x <= r as real
  {
    if x >= 0.0 then x.Floor else -((-x).Floor)
  }

  predicate IsDigit(c: char) {
    '0' <= c <= '9'
  }

  predicate AllDigits(s: string) {
    forall i :: 0 <= i < |s| ==> IsDigit(s[i])
  }

  function DigitValue(c: char): (r: nat)
    requires IsDigit(c)
    ensures r < 10
  {
    c as int - '0' as int
  }

  function DigitChar(d: nat): (c: char)
    requires d < 10
    ensures IsDigit(c) && DigitValue(c) == d
  {
    ('0' as int + d) as char
  }

  function Pow10(k: nat): (r: nat)
    ensures r >= 1
  {
    if k == 0 then 1 else 10 * Pow10(k - 1)
  }

  /** The value of a string of decimal digits, most significant first. */
  function DigitsValue(s: string): (r: nat)
    requires AllDigits(s)
    ensures r < Pow10(|s|)
  {
    if s == [] then 0 else DigitsValue(s[..|s| - 1]) * 10 + DigitValue(s[|s| - 1])
  }

  /** The shortest decimal spelling of a natural number. */
  function NatToDigits(n: nat): (s: string)
    ensures |s| >= 1 && AllDigits(s)
    ensures |s| > 1 ==> s[0] != '0'
  {
    if n < 10 then [DigitChar(n)] else NatToDigits(n / 10) + [DigitChar(n % 10)]
  }

  /** Reading back a spelled-out number gives the number. */
  lemma {:induction false} NatToDigitsValue(n: nat)
    ensures DigitsValue(NatToDigits(n)) == n
  {
    if n >= 10 {
      var s := NatToDigits(n);
      assert s[..|s| - 1] == NatToDigits(n / 10);
      NatToDigitsValue(n / 10);
    }
  }

  /** A number below 10^k needs at most k digits. */
  lemma {:induction false} NatToDigitsLength(n: nat, k: nat)
    requires 1 <= k && n < Pow10(k)
    ensures |NatToDigits(n)| <= k
  {
    if n >= 10 {
      assert k != 1;
      assert n / 10 < Pow10(k - 1);
      NatToDigitsLength(n / 10, k - 1);
    }
  }

  /** Re-spelling a digit string never makes it longer. */
  lemma CanonicalNotLonger(s: string)
    requires AllDigits(s) && s != []
    ensures |NatToDigits(DigitsValue(s))| <= |s|
  {
    NatToDigitsLength(DigitsValue(s), |s|);
  }

  /** String(i) for an integer i: a minus sign and digits, nothing else. */
  function IntToDecimal(i: int): (s: string)
    ensures s != [] && NoSpace(s)
    ensures forall j :: 0 <= j < |s| ==> s[j] == '-' || IsDigit(s[j])
  {
    var d := if i < 0 then "-" + NatToDigits(-i) else NatToDigits(i);
    assert forall j :: 0 <= j < |d| ==> d[j] == '-' || IsDigit(d[j]);
    d
  }

  /** Index of the first `c` in `s`, or |s| when there is none. */
  function IndexOfChar(s: string, c: char): (k: nat)
    ensures k <= |s|
    ensures forall i :: 0 <= i < k ==> s[i] != c
    ensures k < |s| ==> s[k] == c
  {
    if s == [] then 0 else if s[0] == c then 0 else 1 + IndexOfChar(s[1..], c)
  }

  /** An unsigned literal: the word Infinity, or digits, optionally '.' and more digits, at least one digit in all. */
  function ParseUnsigned(t: string): Number {
    if t == "Infinity" then Infinite(true) else
    var k := IndexOfChar(t, '.');
    var whole := t[..k];
    var fraction := if k < |t| then t[k + 1..] else "";
    if AllDigits(whole) && AllDigits(fraction) && |whole| + |fraction| > 0 then
      Finite(DigitsValue(whole) as real + DigitsValue(fraction) as real / Pow10(|fraction|) as real)
    else
      NaN
  }

  function Negate(n: Number): Number {
    match n
    case Finite(v) => Finite(-v)
    case NaN => NaN
    case Infinite(positive) => Infinite(!positive)
  }

  /** Number(s) for a string: white space around is ignored, the empty string is 0, a sign may lead. */
  function ParseNumber(s: string): Number {
    var t := Trim(s);
    if t == "" then Finite(0.0)
    else if t[0] == '-' then Negate(ParseUnsigned(t[1..]))
    else if t[0] == '+' then ParseUnsigned(t[1..])
    else ParseUnsigned(t)
  }

  lemma {:induction false} ParseDigits(d: string)
    requires AllDigits(d) && d != []
    ensures ParseUnsigned(d) == Finite(DigitsValue(d) as real)
  {
    var k := IndexOfChar(d, '.');
    assert forall i :: 0 <= i < |d| ==> d[i] != '.';
    assert d[..k] == d;
  }

  lemma DigitsNoSpace(d: string)
    requires AllDigits(d)
    ensures NoSpace(d)
  {
  }

  /** Number(d) for a plain digit string is its decimal value. */
  lemma ParseNumberOfDigits(d: string)
    requires AllDigits(d) && d != []
    ensures ParseNumber(d) == Finite(DigitsValue(d) as real)
  {
    DigitsNoSpace(d);
    TrimNoSpace(d);
    assert ParseNumber(d) == ParseUnsigned(d);
    ParseDigits(d);
  }

  lemma ParseNatDigits(n: nat)
    ensures ParseNumber(NatToDigits(n)) == Finite(n as real)
  {
    ParseNumberOfDigits(NatToDigits(n));
    NatToDigitsValue(n);
  }

  lemma ParseMinus(t: string)
    requires NoSpace(t) && t != [] && t[0] == '-'
    ensures ParseNumber(t) == Negate(ParseUnsigned(t[1..]))
  {
    TrimNoSpace(t);
  }

  lemma ParseNegDigits(n: nat)
    requires n > 0
    ensures ParseNumber("-" + NatToDigits(n)) == Finite(-(n as real))
  {
    var d := NatToDigits(n);
    var s := "-" + d;
    assert NoSpace(s) by {
      assert forall j :: 0 <= j < |s| ==> s[j] == '-' || IsDigit(s[j]);
    }
    ParseMinus(s);
    assert s[1..] == d;
    ParseDigits(d);
    NatToDigitsValue(n);
  }

  /** Number(String(i)) == i: an integer written out by IntToDecimal reads back as itself. */
  lemma IntToDecimalRoundTrip(i: int)
    ensures ParseNumber(IntToDecimal(i)) == Finite(i as real)
  {
    if i < 0 {
      ParseNegDigits(-i);
    } else {
      ParseNatDigits(i);
    }
  }

  /** Number("Infinity") and Number("-Infinity") are the two infinities. */
  lemma ParseInfinity()
    ensures ParseNumber("Infinity") == Infinite(true)
    ensures ParseNumber("-Infinity") == Infinite(false)
  {
    ParsePositiveInfinity();
    ParseNegativeInfinity();
  }

  lemma ParsePositiveInfinity()
    ensures ParseNumber("Infinity") == Infinite(true)
  {
    var t := "Infinity";
    assert NoSpace(t) by {
      assert forall i :: 0 <= i < |t| ==> t[i] in "Infinity";
    }
    TrimNoSpace(t);
  }

  lemma ParseNegativeInfinity()
    ensures ParseNumber("-Infinity") == Infinite(false)
  {
    var m := "-Infinity";
    assert NoSpace(m) by {
      assert forall i :: 0 <= i < |m| ==> m[i] in "-Infinity";
    }
    TrimNoSpace(m);
    assert ParseUnsigned(m[1..]) == Infinite(true) by {
      assert m[1..] == "Infinity";
    }
  }

  /** Number("NaN") is NaN: the text is neither a decimal literal nor Infinity. */
  lemma ParseNaN()
    ensures ParseNumber("NaN") == NaN
  {
    var t := "NaN";
    assert NoSpace(t);
    TrimNoSpace(t);
    assert IndexOfChar(t, '.') == 3;
    assert !IsDigit(t[0]);
  }

  /** The decimal digits of `s`, in order (s.replace(/[^0-9]/g, "")). */
  function FilterDigits(s: string): (r: string)
    ensures AllDigits(r) && |r| <= |s|
  {
    if s == [] then [] else (if IsDigit(s[0]) then [s[0]] else []) + FilterDigits(s[1..])
  }

  lemma {:induction false} FilterDigitsAppend(a: string, b: string)
    ensures FilterDigits(a + b) == FilterDigits(a) + FilterDigits(b)
  {
    if a == [] {
      assert a + b == b;
    } else {
      var h := if IsDigit(a[0]) then [a[0]] else [];
      assert (a + b)[0] == a[0] && (a + b)[1..] == a[1..] + b;
      assert FilterDigits(a + b) == h + FilterDigits(a[1..] + b);
      assert FilterDigits(a) == h + FilterDigits(a[1..]);
      FilterDigitsAppend(a[1..], b);
    }
  }

  lemma {:induction false} FilterDigitsOfDigits(s: string)
    requires AllDigits(s)
    ensures FilterDigits(s) == s
  {
    if s != [] {
      FilterDigitsOfDigits(s[1..]);
    }
  }

  /** en-GB grouping of a digit string: a comma before every third digit from the right. */
  function GroupThousands(d: string): (r: string)
    ensures |r| >= |d|
    ensures d != [] ==> r != [] && r[0] == d[0]
  {
    if |d| <= 3 then d else GroupThousands(d[..|d| - 3]) + "," + d[|d| - 3..]
  }

  /** Dropping the non-digits of g + "," + tail drops the joining comma and the non-digits of g. */
  lemma FilterDigitsJoin(g: string, tail: string)
    requires AllDigits(tail)
    ensures FilterDigits(g + "," + tail) == FilterDigits(g) + tail
  {
    var x := FilterDigits(g);
    assert FilterDigits(g + ",") == x by {
      assert FilterDigits(",") == [] by {
        assert ","[1..] == [];
      }
      FilterDigitsAppend(g, ",");
      assert x + [] == x;
    }
    assert FilterDigits(tail) == tail by {
      FilterDigitsOfDigits(tail);
    }
    FilterDigitsAppend(g + ",", tail);
  }

  /** Dropping everything but digits undoes the grouping. */
  lemma {:induction false} FilterDigitsOfGrouped(d: string)
    requires AllDigits(d)
    ensures FilterDigits(GroupThousands(d)) == d
  {
    if |d| <= 3 {
      FilterDigitsOfDigits(d);
    } else {
      var head, tail := d[..|d| - 3], d[|d| - 3..];
      assert AllDigits(head) && AllDigits(tail);
      FilterDigitsOfGrouped(head);
      FilterDigitsJoin(GroupThousands(head), tail);
      assert head + tail == d;
    }
  }

  /** Removing the commas of g + "," + tail removes the joining comma and the commas of g. */
  lemma RemoveCommasJoin(g: string, tail: string)
    requires ',' !in tail
    ensures ReplaceChar(g + "," + tail, ',', "") == ReplaceChar(g, ',', "") + tail
  {
    var x := ReplaceChar(g, ',', "");
    assert ReplaceChar(g + ",", ',', "") == x by {
      RemoveCommaAlone();
      ReplaceCharAppend(g, ",", ',', "");
      assert x + [] == x;
    }
    assert ReplaceChar(tail, ',', "") == tail by {
      ReplaceCharAbsent(tail, ',', "");
    }
    ReplaceCharAppend(g + ",", tail, ',', "");
  }

  lemma RemoveCommaAlone()
    ensures ReplaceChar(",", ',', "") == []
  {
    assert ","[0] == ',' && ","[1..] == [];
  }

  /** Removing the commas undoes the grouping. */
  lemma {:induction false} RemoveCommasOfGrouped(d: string)
    requires AllDigits(d)
    ensures ReplaceChar(GroupThousands(d), ',', "") == d
  {
    if |d| <= 3 {
      assert forall i :: 0 <= i < |d| ==> d[i] != ',';
      ReplaceCharAbsent(d, ',', "");
    } else {
      var head, tail := d[..|d| - 3], d[|d| - 3..];
      assert AllDigits(head);
      assert forall i :: 0 <= i < |tail| ==> tail[i] != ',';
      RemoveCommasOfGrouped(head);
      RemoveCommasJoin(GroupThousands(head), tail);
      assert head + tail == d;
    }
  }

  /** Grouped text holds only digits and commas, so it has no white space. */
  lemma {:induction false} GroupedNoSpace(d: string)
    requires AllDigits(d)
    ensures NoSpace(GroupThousands(d))
    ensures forall i :: 0 <= i < |GroupThousands(d)| ==> GroupThousands(d)[i] == ',' || IsDigit(GroupThousands(d)[i])
  {
    if |d| > 3 {
      GroupedNoSpace(d[..|d| - 3]);
    }
  }
}
