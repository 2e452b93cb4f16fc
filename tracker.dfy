// The pure logic of the transfer tracker page (app.js): money parsing and
// integer helpers, the per-player metrics, name formatting, the thousands
// grouping of money inputs, the sort comparator and sortPlayers, the row
// filter of render, the totals of renderTotals and the normalisation of
// loaded and imported records. Money is in whole pounds (FX = 1).
//
// localeCompare is replaced by a fixed total order on strings, code point by
// code point (StrCmp).

module Tracker {
  import opened Wrappers
  import opened Text
  import opened Numbers
  import opened Js
  import opened Html

  /** POS_ORDER (app.js:284). */
  const PosOrder: seq<string> := ["GK", "RB", "CB", "LB", "CDM", "CM", "CAM", "RM", "LM", "ST"]
  /** STATUS_ORDER (app.js:285). */
  const StatusOrder: seq<string> := ["Special", "Exciting", "Great", "Sell"]
  /** sortIndex's value for something not in the order list. */
  const Unlisted: int := 999
  /** More digits than this are left ungrouped by formatNumericWithCommas. */
  const MaxGroupedDigits: nat := 15

  function RealMin(a: real, b: real): real { if a <= b then a else b }
  function RealMax(a: real, b: real): real { if a >= b then a else b }

  /** clamp(n, min, max) (app.js:56): min when Number(n) is not finite, else Math.min(max, Math.max(min, x)). */
  function Clamp(n: Value, min: int, max: int): (r: real)
    ensures !ToNumber(n).Finite? ==> r == min as real
    ensures ToNumber(n).Finite? && min <= max ==> min as real <= r <= max as real
    ensures ToNumber(n).Finite? && min as real <= ToNumber(n).v <= max as real ==> r == ToNumber(n).v
  {
    match ToNumber(n)
    case NaN | Infinite(_) => min as real
    case Finite(x) => RealMin(max as real, RealMax(min as real, x))
  }

  /** asInt(v, fallback) (app.js:63): Number(v) truncated toward zero, or the fallback when not finite. */
  function AsInt(v: Value, fallback: int): (r: int)
    ensures !ToNumber(v).Finite? ==> r == fallback
    ensures ToNumber(v).Finite? && ToNumber(v).v >= 0.0 ==> r as real <= ToNumber(v).v < r as real + 1.0
    ensures ToNumber(v).Finite? && ToNumber(v).v < 0.0 ==> r as real - 1.0 < ToNumber(v).v <= r as real
  {
    match ToNumber(v)
    case Finite(x) => Trunc(x)
    case NaN | Infinite(_) => fallback
  }

  /** asInt of a whole number is that number, so normalised money fields read back unchanged. */
  lemma AsIntOfInt(k: int, fallback: int)
    ensures AsInt(Num(k as real), fallback) == k
  {
  }

  /** parseMoneyInput (app.js:57-62): commas dropped, trimmed, "" is 0, otherwise Number truncated, 0 when not finite. */
  function ParseMoneyInput(str: Value): (r: int)
    ensures str.Undefined? || str.Null? ==> r == 0
  {
    var s := Trim(ReplaceChar(ToStr(Coalesce(str, Str(""))), ',', ""));
    if s == "" then 0
    else match ParseNumber(s)
      case Finite(x) => Trunc(x)
      case NaN | Infinite(_) => 0
  }

  /** A whole number written out by String() parses back to itself. */
  lemma ParseMoneyOfInt(i: int)
    ensures ParseMoneyInput(Num(i as real)) == i
  {
    var d := IntToDecimal(i);
    assert ToStr(Num(i as real)) == d;
    ReplaceCharAbsent(d, ',', "");
    TrimNoSpace(d);
    IntToDecimalRoundTrip(i);
  }

  /** A comma-grouped digit string parses to the value of its digits. */
  lemma ParseMoneyOfGrouped(d: string)
    requires AllDigits(d) && d != []
    ensures ParseMoneyInput(Str(GroupThousands(d))) == DigitsValue(d)
  {
    RemoveCommasOfGrouped(d);
    DigitsNoSpace(d);
    TrimNoSpace(d);
    ParseNumberOfDigits(d);
  }

  /** `(v || "").trim()`. */
  function TrimmedText(v: Value): (r: string)
    ensures Trimmed(r)
  {
    Trim(TextOf(v))
  }

  /** fullName (app.js:69-73). */
  function FullName(firstName: Value, surname: Value): string {
    Trim(TrimmedText(firstName) + " " + TrimmedText(surname))
  }

  /** fullName joins the trimmed names with one space, and drops the space when either is blank. */
  lemma FullNameCases(firstName: Value, surname: Value)
    ensures var f, s := TrimmedText(firstName), TrimmedText(surname);
      FullName(firstName, surname) == if f == "" then s else if s == "" then f else f + " " + s
  {
    TrimJoin(TrimmedText(firstName), TrimmedText(surname));
  }

  /** displayName (app.js:74-81). */
  function DisplayName(p: Record): string {
    ShortName(TrimmedText(Get(p, "firstName")), TrimmedText(Get(p, "surname")))
  }

  /** displayName on the trimmed names. */
  function ShortName(first: string, sur: string): string {
    if first == "" && sur == "" then ""
    else
      var initial := if first != "" then [ToUpperChar(first[0])] + "." else "";
      var space := if initial != "" && sur != "" then " " else "";
      initial + space + sur
  }

  /** displayName is the capital initial and '.', a space, then the surname; either part may be absent, and both absent give "". */
  lemma ShortNameShape(first: string, sur: string)
    ensures var r := ShortName(first, sur);
      && (r == "" <==> first == "" && sur == "")
      && (first == "" ==> r == sur)
      && (first != "" && sur == "" ==> r == [ToUpperChar(first[0])] + ".")
      && (first != "" && sur != "" ==> r == [ToUpperChar(first[0])] + ". " + sur)
  {
    if first != "" {
      var c := ToUpperChar(first[0]);
      if sur == "" {
        assert ShortName(first, sur) == [c] + "." + "" + "";
      } else {
        assert ShortName(first, sur) == [c] + "." + " " + sur;
        assert [c] + "." + " " + sur == [c] + ". " + sur;
      }
    }
  }

  /** potAvg (app.js:82-87): null when both potentials are 0, otherwise their mean. */
  function PotAvg(p: Record): (r: Option<real>)
    ensures var lo, hi := AsInt(Get(p, "potMin"), 0), AsInt(Get(p, "potMax"), 0);
      && (r.None? <==> lo == 0 && hi == 0)
      && (r.Some? ==> 2.0 * r.value == (lo + hi) as real)
      && (r.Some? && lo <= hi ==> lo as real <= r.value <= hi as real)
  {
    var lo := AsInt(Get(p, "potMin"), 0);
    var hi := AsInt(Get(p, "potMax"), 0);
    if lo == 0 && hi == 0 then None else Some((lo + hi) as real / 2.0)
  }

  /** statusFromAvg (app.js:88-94); null (no average) is "N/A". */
  function StatusFromAvg(avg: Option<real>): string {
    match avg
    case None => "N/A"
    case Some(a) =>
      if a >= 90.0 then "Special"
      else if a >= 85.0 then "Exciting"
      else if a >= 80.0 then "Great"
      else "Sell"
  }

  /** indexOf: the first position of `s`, or -1. */
  function IndexOf(arr: seq<string>, s: string): (i: int)
    ensures -1 <= i < |arr|
    ensures i >= 0 ==> arr[i] == s && forall j :: 0 <= j < i ==> arr[j] != s
    ensures i == -1 <==> s !in arr
  {
    if arr == [] then -1
    else if arr[0] == s then 0
    else
      var k := IndexOf(arr[1..], s);
      assert s in arr[1..] ==> s in arr;
      assert s in arr && arr[0] != s ==> s in arr[1..];
      if k == -1 then -1 else k + 1
  }

  /** sortIndex (app.js:446-449): the position of String(val || "") in the order list, or 999. */
  function SortIndex(arr: seq<string>, val: Value): int {
    var i := IndexOf(arr, ToStr(Or(val, Str(""))));
    if i == -1 then Unlisted else i
  }

  /** 999 exactly when the text is not listed; otherwise its first position. */
  lemma SortIndexMeaning(arr: seq<string>, val: Value)
    requires |arr| < Unlisted
    ensures var s, r := ToStr(Or(val, Str(""))), SortIndex(arr, val);
      && (r == Unlisted <==> s !in arr)
      && (r != Unlisted ==> 0 <= r < |arr| && arr[r] == s && forall j :: 0 <= j < r ==> arr[j] != s)
  {
  }

  /** The status rank of an average (0 = Special .. 3 = Sell). */
  function StatusRank(a: real): (r: nat)
    ensures r < |StatusOrder|
  {
    if a >= 90.0 then 0 else if a >= 85.0 then 1 else if a >= 80.0 then 2 else 3
  }

  lemma StatusOrderIndex(i: nat)
    requires i < |StatusOrder|
    ensures SortIndex(StatusOrder, Str(StatusOrder[i])) == i
  {
    SortIndexMeaning(StatusOrder, Str(StatusOrder[i]));
    assert StatusOrder[0] == "Special" && StatusOrder[1] == "Exciting" && StatusOrder[2] == "Great" && StatusOrder[3] == "Sell";
    assert ToStr(Or(Str(StatusOrder[i]), Str(""))) == StatusOrder[i];
    assert StatusOrder[i] in StatusOrder;
  }

  /** A named status is the STATUS_ORDER entry at its rank; with no average it is "N/A", which sorts last. */
  lemma StatusIndex(avg: Option<real>)
    ensures avg.None? ==> SortIndex(StatusOrder, Str(StatusFromAvg(avg))) == Unlisted
    ensures avg.Some? ==>
      (StatusFromAvg(avg) == StatusOrder[StatusRank(avg.value)]
       && SortIndex(StatusOrder, Str(StatusFromAvg(avg))) == StatusRank(avg.value))
  {
    if avg.Some? {
      var r := StatusRank(avg.value);
      assert StatusFromAvg(avg) == StatusOrder[r] by {
        assert StatusOrder[0] == "Special" && StatusOrder[1] == "Exciting" && StatusOrder[2] == "Great" && StatusOrder[3] == "Sell";
      }
      StatusOrderIndex(r);
    } else {
      assert StatusFromAvg(avg) == "N/A";
      assert "N/A" !in StatusOrder by {
        assert StatusOrder == ["Special", "Exciting", "Great", "Sell"];
      }
      SortIndexMeaning(StatusOrder, Str("N/A"));
    }
  }

  /** A higher average never gets a worse status, so the status sort follows the average. */
  lemma StatusMonotone(a: real, b: real)
    requires a <= b
    ensures SortIndex(StatusOrder, Str(StatusFromAvg(Some(b)))) <= SortIndex(StatusOrder, Str(StatusFromAvg(Some(a))))
  {
    assert SortIndex(StatusOrder, Str(StatusFromAvg(Some(a)))) == StatusRank(a) by {
      StatusIndex(Some(a));
    }
    assert SortIndex(StatusOrder, Str(StatusFromAvg(Some(b)))) == StatusRank(b) by {
      StatusIndex(Some(b));
    }
    StatusRankMonotone(a, b);
  }

  lemma StatusRankMonotone(a: real, b: real)
    requires a <= b
    ensures StatusRank(b) <= StatusRank(a)
  {
  }

  /** profitGBP (app.js:95). */
  function ProfitGbp(p: Record): int {
    AsInt(Get(p, "sale_gbp"), 0) - AsInt(Get(p, "cost_gbp"), 0)
  }

  /** roi (app.js:96-101): null unless cost and sale are both positive, else (sale - cost) / cost. */
  function Roi(p: Record): Option<real> {
    var cost := AsInt(Get(p, "cost_gbp"), 0);
    var sale := AsInt(Get(p, "sale_gbp"), 0);
    if cost <= 0 || sale <= 0 then None else Some((sale - cost) as real / cost as real)
  }

  /** roi is defined exactly when cost and sale are positive; it is profit per pound of cost, so it has the profit's sign. */
  lemma RoiMeaning(p: Record)
    ensures var cost, sale := AsInt(Get(p, "cost_gbp"), 0), AsInt(Get(p, "sale_gbp"), 0);
      && (Roi(p).None? <==> cost <= 0 || sale <= 0)
      && (Roi(p).Some? ==>
            && Roi(p).value * cost as real == ProfitGbp(p) as real
            && (Roi(p).value > 0.0 <==> ProfitGbp(p) > 0)
            && (Roi(p).value == 0.0 <==> ProfitGbp(p) == 0)
            && Roi(p).value > -1.0)
  {
    var cost, sale := AsInt(Get(p, "cost_gbp"), 0), AsInt(Get(p, "sale_gbp"), 0);
    if cost > 0 && sale > 0 {
      assert Roi(p).value == (sale - cost) as real / cost as real;
      assert ProfitGbp(p) == sale - cost;
      RatioSign(sale - cost, cost);
    }
  }

  /** The ratio of a profit d to a positive cost c: multiplying back gives d, the sign is d's, and it exceeds -1 when d > -c. */
  lemma RatioSign(d: int, c: int)
    requires c > 0
    ensures var v := d as real / c as real;
      && v * c as real == d as real
      && (v > 0.0 <==> d > 0)
      && (v == 0.0 <==> d == 0)
      && (d > -c ==> v > -1.0)
  {
    var v := d as real / c as real;
    var r := c as real;
    assert v * r == d as real;
    if v > 0.0 {
      assert v * r > 0.0;
    } else if v < 0.0 {
      assert v * r < 0.0;
    }
    var w := v + 1.0;
    assert w * r == d as real + r;
    if w <= 0.0 {
      assert w * r <= 0.0;
    }
  }

  /** app.js escapeHtml (app.js:115-122): String(v), escaped; the text holds no markup and decodes back to String(v). */
  function EscapeHtml(v: Value): (r: string)
    ensures forall i :: 0 <= i < |r| ==> r[i] == '&' || !IsSpecial(r[i])
    ensures forall i :: 0 <= i < |r| && r[i] == '&' ==> EntityAt(r, i)
    ensures Unescape(r) == ToStr(v)
  {
    var s := ToStr(v);
    EscapeTextSafe(s);
    UnescapeEscapeText(s);
    EscapeText(s)
  }

  /** formatNumericWithCommas (app.js:523-530): the new value of a money input. */
  function FormatNumericWithCommas(disabled: bool, value: string): string {
    if disabled then value
    else
      var digits := FilterDigits(value);
      if digits == "" then ""
      else if |digits| > MaxGroupedDigits then digits
      else GroupThousands(NatToDigits(DigitsValue(digits)))
  }

  /** Formatting keeps the digits' value: a disabled field is unchanged, no digits give "", too many digits stay raw, otherwise the grouped value reads back as the digits' value. */
  lemma FormatMeaning(disabled: bool, value: string)
    ensures var r, digits := FormatNumericWithCommas(disabled, value), FilterDigits(value);
      && (disabled ==> r == value)
      && (!disabled && digits == "" ==> r == "")
      && (!disabled && |digits| > MaxGroupedDigits ==> r == digits)
      && (!disabled && 0 < |digits| <= MaxGroupedDigits ==>
            FilterDigits(r) == NatToDigits(DigitsValue(digits))
            && ParseMoneyInput(Str(r)) == DigitsValue(digits))
  {
    var digits := FilterDigits(value);
    if !disabled && 0 < |digits| <= MaxGroupedDigits {
      var n := DigitsValue(digits);
      FilterDigitsOfGrouped(NatToDigits(n));
      ParseMoneyOfGrouped(NatToDigits(n));
      NatToDigitsValue(n);
    }
  }

  /** Formatting its own output changes nothing, so typing into a formatted field is stable. */
  lemma FormatIdempotent(disabled: bool, value: string)
    ensures FormatNumericWithCommas(disabled, FormatNumericWithCommas(disabled, value))
         == FormatNumericWithCommas(disabled, value)
  {
    var digits := FilterDigits(value);
    if !disabled && digits != "" {
      if |digits| > MaxGroupedDigits {
        FilterDigitsOfDigits(digits);
      } else {
        var canon := NatToDigits(DigitsValue(digits));
        FilterDigitsOfGrouped(canon);
        CanonicalNotLonger(digits);
        NatToDigitsValue(DigitsValue(digits));
      }
    }
  }

  /** getDashboardUrl (app.js:12-17): one level up from a /tracker/ page. */
  function GetDashboardUrl(pathname: string): string {
    if Contains(pathname, "/tracker/") || EndsWith(pathname, "/tracker") then "../index.html" else "./index.html"
  }

  lemma {:induction false} ContainsInside(prefix: string, sub: string, rest: string)
    ensures Contains(prefix + sub + rest, sub)
  {
    if prefix == [] {
      assert (prefix + sub + rest)[..|sub|] == sub;
    } else {
      assert (prefix + sub + rest)[1..] == prefix[1..] + sub + rest;
      ContainsInside(prefix[1..], sub, rest);
    }
  }

  /** Any page under a /tracker/ directory, or the /tracker path itself, links to ../index.html. */
  lemma DashboardFromTracker(prefix: string, rest: string)
    ensures GetDashboardUrl(prefix + "/tracker/" + rest) == "../index.html"
    ensures GetDashboardUrl(prefix + "/tracker") == "../index.html"
  {
    ContainsInside(prefix, "/tracker/", rest);
    assert (prefix + "/tracker")[|prefix|..] == "/tracker";
  }

  lemma {:induction false} ContainsExtended(s: string, sub: string, ext: string)
    ensures Contains(s, sub + ext) ==> Contains(s, sub)
    decreases |s|
  {
    if StartsWith(s, sub + ext) {
      assert s[..|sub|] == s[..|sub + ext|][..|sub|];
    }
    if s != [] {
      ContainsExtended(s[1..], sub, ext);
    }
  }

  lemma EndsWithContains(s: string, suffix: string)
    ensures EndsWith(s, suffix) ==> Contains(s, suffix)
  {
    if EndsWith(s, suffix) {
      var k := |s| - |suffix|;
      ContainsInside(s[..k], suffix, []);
      assert s[..k] + suffix + [] == s;
    }
  }

  /** Any other page, one whose path never mentions "/tracker", links to ./index.html. */
  lemma DashboardElsewhere(pathname: string)
    requires !Contains(pathname, "/tracker")
    ensures GetDashboardUrl(pathname) == "./index.html"
  {
    ContainsExtended(pathname, "/tracker", "/");
    assert "/tracker" + "/" == "/tracker/";
    EndsWithContains(pathname, "/tracker");
  }

  // ---------- sorting ----------

  /** localeCompare, as a code-point order: negative, zero or positive. */
  function StrCmp(a: string, b: string): (r: int)
    ensures -1 <= r <= 1
  {
    if a == [] && b == [] then 0
    else if a == [] then -1
    else if b == [] then 1
    else if a[0] < b[0] then -1
    else if a[0] > b[0] then 1
    else StrCmp(a[1..], b[1..])
  }

  /** The order is antisymmetric and only equal strings compare as 0. */
  lemma {:induction false} StrCmpAntisymmetric(a: string, b: string)
    ensures StrCmp(a, b) == -StrCmp(b, a)
    ensures StrCmp(a, b) == 0 <==> a == b
  {
    if a != [] && b != [] && a[0] == b[0] {
      StrCmpAntisymmetric(a[1..], b[1..]);
      assert a == [a[0]] + a[1..] && b == [b[0]] + b[1..];
    }
  }

  /** A sort key: a string (player), a number, or -Infinity (a missing roi). */
  datatype SortKey = KText(s: string) | KNum(x: real) | KNegInf

  function KeyRank(k: SortKey): nat {
    match k
    case KNegInf => 0
    case KNum(_) => 1
    case KText(_) => 2
  }

  /** `A > B` on sort keys. */
  predicate KeyGreater(a: SortKey, b: SortKey) {
    if KeyRank(a) != KeyRank(b) then KeyRank(a) > KeyRank(b)
    else match (a, b)
      case (KNum(x), KNum(y)) => x > y
      case (KText(x), KText(y)) => StrCmp(x, y) > 0
      case _ => false
  }

  /** Distinct keys: exactly one is greater. */
  lemma KeyGreaterTotal(a: SortKey, b: SortKey)
    requires a != b
    ensures KeyGreater(a, b) != KeyGreater(b, a)
  {
    if a.KText? && b.KText? {
      StrCmpAntisymmetric(a.s, b.s);
    }
  }

  function SurnameKey(p: Record): string { ToStr(Or(Get(p, "surname"), Str(""))) }
  function FirstNameKey(p: Record): string { ToStr(Or(Get(p, "firstName"), Str(""))) }

  /** sortValue (app.js:451-471). */
  function SortValue(p: Record, key: string): SortKey {
    if key == "player" then KText(SurnameKey(p))
    else if key == "seniority" then KNum(if Get(p, "seniority") == Str("Youth") then 1.0 else 0.0)
    else if key == "position" then KNum(SortIndex(PosOrder, Get(p, "pos")) as real)
    else if key == "ovr" then KNum(AsInt(Get(p, "intl"), 0) as real)
    else if key == "potential" then KNum(match PotAvg(p) case None => -1.0 case Some(a) => Trunc(a) as real)
    else if key == "status" then KNum(SortIndex(StatusOrder, Str(StatusFromAvg(PotAvg(p)))) as real)
    else if key == "cost" then KNum(AsInt(Get(p, "cost_gbp"), 0) as real)
    else if key == "sale" then KNum(AsInt(Get(p, "sale_gbp"), 0) as real)
    else if key == "profit" then KNum(ProfitGbp(p) as real)
    else if key == "roi" then (match Roi(p) case Some(r) => KNum(r) case None => KNegInf)
    else KNum(0.0)
  }

  /** tieBreakName (app.js:440-444): surname, then first name. */
  function TieBreak(a: Record, b: Record): int {
    var sur := StrCmp(SurnameKey(a), SurnameKey(b));
    if sur != 0 then sur else StrCmp(FirstNameKey(a), FirstNameKey(b))
  }

  /** The comparator of sortPlayers (app.js:475-486); dir is 1 for asc and -1 for desc. */
  function Compare(a: Record, b: Record, key: string, dir: int): int {
    var ka := SortValue(a, key);
    var kb := SortValue(b, key);
    if ka == kb then TieBreak(a, b)
    else if key == "player" then dir * StrCmp(SurnameKey(a), SurnameKey(b))
    else dir * (if KeyGreater(ka, kb) then 1 else -1)
  }

  /** Swapping the two players negates the comparator. */
  lemma CompareAntisymmetric(a: Record, b: Record, key: string, dir: int)
    requires dir == 1 || dir == -1
    ensures Compare(a, b, key, dir) == -Compare(b, a, key, dir)
  {
    StrCmpAntisymmetric(SurnameKey(a), SurnameKey(b));
    StrCmpAntisymmetric(FirstNameKey(a), FirstNameKey(b));
    var ka, kb := SortValue(a, key), SortValue(b, key);
    if ka != kb {
      KeyGreaterTotal(ka, kb);
    }
  }

  /** The comparator of sortPlayers as a function value, for the given key and direction. */
  function CompareBy(key: string, dir: int): (Record, Record) -> int {
    (a: Record, b: Record) => Compare(a, b, key, dir)
  }

  /** Each player compares no greater than the next one under cmp. */
  predicate SortedWith(r: seq<Record>, cmp: (Record, Record) -> int) {
    forall i :: 0 <= i < |r| - 1 ==> cmp(r[i], r[i + 1]) <= 0
  }

  /** Each player compares no greater than the next one. */
  predicate SortedBy(r: seq<Record>, key: string, dir: int) {
    SortedWith(r, CompareBy(key, dir))
  }

  /** A comparator that swapping its arguments negates. */
  ghost predicate Antisymmetric(cmp: (Record, Record) -> int) {
    forall a, b :: cmp(a, b) == -cmp(b, a)
  }

  /** Inserts x before the first element it does not compare greater than. */
  function Insert(x: Record, s: seq<Record>, cmp: (Record, Record) -> int): (r: seq<Record>)
    ensures |r| == |s| + 1
    ensures r[0] == x || (s != [] && r[0] == s[0])
  {
    if s == [] || cmp(x, s[0]) <= 0 then [x] + s
    else [s[0]] + Insert(x, s[1..], cmp)
  }

  /** Insertion adds x and nothing else. */
  lemma {:induction false} InsertMultiset(x: Record, s: seq<Record>, cmp: (Record, Record) -> int)
    ensures multiset(Insert(x, s, cmp)) == multiset(s) + multiset{x}
  {
    if s != [] && cmp(x, s[0]) > 0 {
      InsertMultiset(x, s[1..], cmp);
      assert s == [s[0]] + s[1..];
    }
  }

  /** Insertion into a sorted list keeps it sorted. */
  lemma {:induction false} InsertSorted(x: Record, s: seq<Record>, cmp: (Record, Record) -> int)
    requires Antisymmetric(cmp)
    requires SortedWith(s, cmp)
    ensures SortedWith(Insert(x, s, cmp), cmp)
  {
    if s != [] && cmp(x, s[0]) > 0 {
      var t := Insert(x, s[1..], cmp);
      InsertSorted(x, s[1..], cmp);
      assert cmp(s[0], x) < 0;
      assert Insert(x, s, cmp) == [s[0]] + t;
      assert cmp(s[0], t[0]) <= 0;
    }
  }

  /** Insertion sort of the list under cmp: a permutation of the list. */
  function SortWith(list: seq<Record>, cmp: (Record, Record) -> int): (r: seq<Record>)
    ensures multiset(r) == multiset(list) && |r| == |list|
  {
    if list == [] then []
    else
      var rest := SortWith(list[1..], cmp);
      assert list == [list[0]] + list[1..];
      InsertMultiset(list[0], rest, cmp);
      Insert(list[0], rest, cmp)
  }

  /** Under an antisymmetric comparator the sort's result is sorted. */
  lemma {:induction false} SortWithSorted(list: seq<Record>, cmp: (Record, Record) -> int)
    requires Antisymmetric(cmp)
    ensures SortedWith(SortWith(list, cmp), cmp)
  {
    if list != [] {
      SortWithSorted(list[1..], cmp);
      InsertSorted(list[0], SortWith(list[1..], cmp), cmp);
    }
  }

  /** sortPlayers's comparator in either direction is antisymmetric. */
  lemma CompareByAntisymmetric(key: string, dir: int)
    requires dir == 1 || dir == -1
    ensures Antisymmetric(CompareBy(key, dir))
  {
    forall a, b ensures CompareBy(key, dir)(a, b) == -CompareBy(key, dir)(b, a) {
      CompareAntisymmetric(a, b, key, dir);
    }
  }

  /** sortPlayers (app.js:473-487): a sorted copy of the list; the list itself is a value and stays as it was. */
  function SortPlayers(list: seq<Record>, key: string, dir: int): (r: seq<Record>)
    ensures multiset(r) == multiset(list) && |r| == |list|
    ensures (dir == 1 || dir == -1) ==> SortedBy(r, key, dir)
  {
    var r := SortWith(list, CompareBy(key, dir));
    if dir == 1 || dir == -1 then
      CompareByAntisymmetric(key, dir);
      SortWithSorted(list, CompareBy(key, dir));
      r
    else r
  }

  /** "asc" sorts up, anything else down. */
  function Direction(sortDir: string): int {
    if sortDir == "asc" then 1 else -1
  }

  /**
   * What sortedness means for neighbours: ascending, the key never goes
   * down; descending, it never goes up; equal keys are ordered by surname,
   * then first name.
   */
  lemma SortedNeighbours(r: seq<Record>, key: string, sortDir: string, i: int)
    requires SortedBy(r, key, Direction(sortDir)) && 0 <= i < |r| - 1
    ensures var ka, kb := SortValue(r[i], key), SortValue(r[i + 1], key);
      && (sortDir == "asc" ==> !KeyGreater(ka, kb))
      && (sortDir != "asc" ==> !KeyGreater(kb, ka))
      && (ka == kb ==> TieBreak(r[i], r[i + 1]) <= 0)
  {
    var ka, kb := SortValue(r[i], key), SortValue(r[i + 1], key);
    assert Compare(r[i], r[i + 1], key, Direction(sortDir)) <= 0;
    StrCmpAntisymmetric(SurnameKey(r[i]), SurnameKey(r[i + 1]));
    if ka != kb {
      KeyGreaterTotal(ka, kb);
    }
  }

  // ---------- sort header clicks ----------

  /** The columns whose first click sorts ascending. */
  const AscendingFirst: seq<string> := ["player", "seniority", "position", "status"]

  /** The header click handler (app.js:504-516): the new (sortKey, sortDir). */
  function NextSort(sortKey: string, sortDir: string, key: string): (string, string) {
    if key == "" then (sortKey, sortDir)
    else if sortKey == key then (sortKey, if sortDir == "asc" then "desc" else "asc")
    else (key, if key in AscendingFirst && key != "ovr" then "asc" else "desc")
  }

  /** Clicking the current column flips the direction; clicking it again restores it. */
  lemma ClickSameColumn(sortKey: string, sortDir: string)
    requires sortKey != "" && (sortDir == "asc" || sortDir == "desc")
    ensures NextSort(sortKey, sortDir, sortKey).1 != sortDir
    ensures NextSort(sortKey, sortDir, sortKey).0 == sortKey
    ensures var (k, d) := NextSort(sortKey, sortDir, sortKey); NextSort(k, d, sortKey) == (sortKey, sortDir)
  {
  }

  /** A new column starts ascending for player, seniority, position and status, descending otherwise. */
  lemma ClickNewColumn(sortKey: string, sortDir: string, key: string)
    requires key != "" && key != sortKey
    ensures NextSort(sortKey, sortDir, key).0 == key
    ensures NextSort(sortKey, sortDir, key).1 == "asc" <==> key in {"player", "seniority", "position", "status"}
  {
    assert key in AscendingFirst <==> key in {"player", "seniority", "position", "status"};
  }

  // ---------- the row filter of render ----------

  /** The view settings render reads: the seniority filter, the ex-player toggle, the active filter and the search box. */
  datatype View = View(seniority: string, showExPlayers: bool, activeFilter: string, search: string)

  /** matchesSeniority (app.js:425-429). */
  predicate MatchesSeniority(p: Record, filter: string) {
    filter == "All" || Or(Get(p, "seniority"), Str("Senior")) == Str(filter)
  }

  /** The second filter of render (app.js:540-546). */
  predicate Listed(p: Record, v: View) {
    var q := ToLower(Trim(v.search));
    && MatchesSeniority(p, v.seniority)
    && (v.showExPlayers || Get(p, "active") == Str("Y"))
    && (!v.showExPlayers || v.activeFilter == "ALL" || Get(p, "active") == Str(v.activeFilter))
    && (q == "" || Contains(ToLower(DisplayName(p)), q) || Contains(ToLower(TextOf(Get(p, "pos"))), q))
  }

  /** Array.prototype.filter: the elements keep accepts, in order. */
  function FilterWith(list: seq<Record>, keep: Record -> bool): seq<Record> {
    if list == [] then []
    else (if keep(list[0]) then [list[0]] else []) + FilterWith(list[1..], keep)
  }

  /** The filter keeps every accepted element as often as it occurs and drops every other. */
  lemma {:induction false} FilterWithCount(list: seq<Record>, keep: Record -> bool, x: Record)
    ensures multiset(FilterWith(list, keep))[x] == if keep(x) then multiset(list)[x] else 0
  {
    if list != [] {
      FilterWithCount(list[1..], keep, x);
      assert list == [list[0]] + list[1..];
    }
  }

  /** players.filter(...).filter(...). */
  function FilterPlayers(list: seq<Record>, v: View): seq<Record> {
    FilterWith(list, p => Listed(p, v))
  }

  /** The filter keeps every listed player as often as it occurs and drops every other. */
  lemma FilterPlayersCount(list: seq<Record>, v: View, x: Record)
    ensures multiset(FilterPlayers(list, v))[x] == if Listed(x, v) then multiset(list)[x] else 0
  {
    FilterWithCount(list, p => Listed(p, v), x);
  }

  /** The rows render draws: the listed players, sorted. */
  function Rows(players: seq<Record>, v: View, sortKey: string, sortDir: string): seq<Record> {
    SortPlayers(FilterPlayers(players, v), sortKey, Direction(sortDir))
  }

  /** Every listed player gets its rows and no other player does, in sorted order. */
  lemma RowsMeaning(players: seq<Record>, v: View, sortKey: string, sortDir: string, x: Record)
    ensures multiset(Rows(players, v, sortKey, sortDir))[x] == if Listed(x, v) then multiset(players)[x] else 0
    ensures SortedBy(Rows(players, v, sortKey, sortDir), sortKey, Direction(sortDir))
  {
    FilterPlayersCount(players, v, x);
  }

  /** With no search, the ex-player toggle on and "ALL", the seniority filter alone decides. */
  lemma ListedUnfiltered(p: Record, seniority: string)
    ensures Listed(p, View(seniority, true, "ALL", "")) <==> MatchesSeniority(p, seniority)
  {
    assert Trim("") == "";
    assert ToLower("") == "";
  }

  // ---------- totals ----------

  function SumCost(list: seq<Record>): int {
    if list == [] then 0 else AsInt(Get(list[0], "cost_gbp"), 0) + SumCost(list[1..])
  }

  function SumSale(list: seq<Record>): int {
    if list == [] then 0 else AsInt(Get(list[0], "sale_gbp"), 0) + SumSale(list[1..])
  }

  function SumProfit(list: seq<Record>): int {
    if list == [] then 0 else ProfitGbp(list[0]) + SumProfit(list[1..])
  }

  function BySeniority(list: seq<Record>, filter: string): seq<Record> {
    if list == [] then []
    else (if MatchesSeniority(list[0], filter) then [list[0]] else []) + BySeniority(list[1..], filter)
  }

  datatype Totals = Totals(cost: int, sale: int, profit: int)

  /** renderTotals (app.js:600-606): sums over the players of the seniority filter, active and ex alike. */
  function TotalsOf(players: seq<Record>, seniority: string): Totals {
    var list := BySeniority(players, seniority);
    Totals(SumCost(list), SumSale(list), SumProfit(list))
  }

  lemma {:induction false} SumProfitSplit(list: seq<Record>)
    ensures SumProfit(list) == SumSale(list) - SumCost(list)
  {
    if list != [] {
      SumProfitSplit(list[1..]);
    }
  }

  /** The profit total is the sale total less the cost total. */
  lemma TotalsProfit(players: seq<Record>, seniority: string)
    ensures TotalsOf(players, seniority).profit == TotalsOf(players, seniority).sale - TotalsOf(players, seniority).cost
  {
    SumProfitSplit(BySeniority(players, seniority));
  }

  lemma {:induction false} SumCostAppend(a: seq<Record>, b: seq<Record>)
    ensures SumCost(a + b) == SumCost(a) + SumCost(b)
  {
    if a != [] {
      assert (a + b)[1..] == a[1..] + b;
      SumCostAppend(a[1..], b);
    } else {
      assert a + b == b;
    }
  }

  lemma {:induction false} SumSaleAppend(a: seq<Record>, b: seq<Record>)
    ensures SumSale(a + b) == SumSale(a) + SumSale(b)
  {
    if a != [] {
      assert (a + b)[1..] == a[1..] + b;
      SumSaleAppend(a[1..], b);
    } else {
      assert a + b == b;
    }
  }

  lemma {:induction false} BySeniorityAppend(a: seq<Record>, b: seq<Record>, filter: string)
    ensures BySeniority(a + b, filter) == BySeniority(a, filter) + BySeniority(b, filter)
  {
    if a != [] {
      assert (a + b)[1..] == a[1..] + b;
      BySeniorityAppend(a[1..], b, filter);
    } else {
      assert a + b == b;
    }
  }

  /** Adding a player of the filtered seniority raises each total by that player's amounts. */
  lemma TotalsAfterAppend(players: seq<Record>, p: Record, seniority: string)
    requires MatchesSeniority(p, seniority)
    ensures TotalsOf(players + [p], seniority).cost == TotalsOf(players, seniority).cost + AsInt(Get(p, "cost_gbp"), 0)
    ensures TotalsOf(players + [p], seniority).sale == TotalsOf(players, seniority).sale + AsInt(Get(p, "sale_gbp"), 0)
  {
    BySeniorityAppend(players, [p], seniority);
    var l := BySeniority(players, seniority);
    assert BySeniority([p], seniority) == [p];
    SumCostAppend(l, [p]);
    SumSaleAppend(l, [p]);
  }

  /** When every player is Youth or Senior, the Youth and Senior totals add up to the All totals. */
  lemma {:induction false} SeniorityPartition(list: seq<Record>)
    requires forall i :: 0 <= i < |list| ==> Get(list[i], "seniority") == Str("Youth") || Get(list[i], "seniority") == Str("Senior")
    ensures TotalsOf(list, "Youth").cost + TotalsOf(list, "Senior").cost == TotalsOf(list, "All").cost
    ensures TotalsOf(list, "Youth").sale + TotalsOf(list, "Senior").sale == TotalsOf(list, "All").sale
  {
    if list != [] {
      var x, rest := list[0], list[1..];
      SeniorityPartition(rest);
      var y, s, a := BySeniority(rest, "Youth"), BySeniority(rest, "Senior"), BySeniority(rest, "All");
      var one := if MatchesSeniority(x, "Youth") then [x] else [];
      var other := if MatchesSeniority(x, "Senior") then [x] else [];
      assert BySeniority(list, "Youth") == one + y;
      assert BySeniority(list, "Senior") == other + s;
      assert BySeniority(list, "All") == [x] + a;
      SumCostAppend(one, y);
      SumCostAppend(other, s);
      SumCostAppend([x], a);
      SumSaleAppend(one, y);
      SumSaleAppend(other, s);
      SumSaleAppend([x], a);
      assert one + other == [x] || other + one == [x];
    }
  }

  // ---------- normalisation of loaded and imported records ----------

  /** A money field read with its legacy fallback: asInt(p[k] ?? p[legacy] ?? 0, 0). */
  function MoneyField(p: Record, k: string, legacy: string): int {
    AsInt(Coalesce(Coalesce(Get(p, k), Get(p, legacy)), Num(0.0)), 0)
  }

  /** The fields loadPlayersFromApi sets. */
  const LoadedFields: set<string> := {"seniority", "cost_gbp", "sale_gbp", "active"}

  /** The map of loadPlayersFromApi (app.js:333-339): seniority, money and active fixed up, every other field kept. */
  function NormalizeLoaded(p: Record): (r: Record)
    ensures r.Keys == p.Keys + LoadedFields
    ensures forall k :: k in p && k !in LoadedFields ==> r[k] == p[k]
    ensures r["seniority"] == Str("Youth") || r["seniority"] == Str("Senior")
    ensures r["active"] == Str("N") || r["active"] == Str("Y")
  {
    p["seniority" := if Get(p, "seniority") == Str("Youth") then Str("Youth") else Str("Senior")]
     ["cost_gbp" := Num(MoneyField(p, "cost_gbp", "cost") as real)]
     ["sale_gbp" := Num(MoneyField(p, "sale_gbp", "sale") as real)]
     ["active" := if Get(p, "active") == Str("N") then Str("N") else Str("Y")]
  }

  /** Normalising a loaded record twice is normalising it once. */
  lemma NormalizeLoadedIdempotent(p: Record)
    ensures NormalizeLoaded(NormalizeLoaded(p)) == NormalizeLoaded(p)
  {
    var q := NormalizeLoaded(p);
    var cost, sale := MoneyField(p, "cost_gbp", "cost"), MoneyField(p, "sale_gbp", "sale");
    assert Get(q, "cost_gbp") == Num(cost as real) && Get(q, "sale_gbp") == Num(sale as real) by {
      LoadedMoney(p);
    }
    assert MoneyField(q, "cost_gbp", "cost") == cost by {
      AsIntOfInt(cost, 0);
    }
    assert MoneyField(q, "sale_gbp", "sale") == sale by {
      AsIntOfInt(sale, 0);
    }
    MapRefresh(q, cost, sale);
  }

  /** The money fields a loaded record holds. */
  lemma LoadedMoney(p: Record)
    ensures Get(NormalizeLoaded(p), "cost_gbp") == Num(MoneyField(p, "cost_gbp", "cost") as real)
    ensures Get(NormalizeLoaded(p), "sale_gbp") == Num(MoneyField(p, "sale_gbp", "sale") as real)
  {
    LoadedNamesDistinct();
  }

  /** The four keys loadPlayersFromApi sets are four different keys. */
  lemma LoadedNamesDistinct()
    ensures "cost_gbp" != "sale_gbp" && "cost_gbp" != "seniority" && "cost_gbp" != "active"
    ensures "sale_gbp" != "seniority" && "sale_gbp" != "active" && "seniority" != "active"
  {
    assert "cost_gbp"[0] != "sale_gbp"[0];
    assert |"cost_gbp"| != |"seniority"| && |"cost_gbp"| != |"active"|;
    assert |"sale_gbp"| != |"seniority"| && |"sale_gbp"| != |"active"| && |"seniority"| != |"active"|;
  }

  /** Normalising a record whose four fields are already normal leaves it as it is. */
  lemma MapRefresh(q: Record, cost: int, sale: int)
    requires "seniority" in q && (q["seniority"] == Str("Youth") || q["seniority"] == Str("Senior"))
    requires "active" in q && (q["active"] == Str("N") || q["active"] == Str("Y"))
    requires "cost_gbp" in q && q["cost_gbp"] == Num(cost as real) && MoneyField(q, "cost_gbp", "cost") == cost
    requires "sale_gbp" in q && q["sale_gbp"] == Num(sale as real) && MoneyField(q, "sale_gbp", "sale") == sale
    ensures NormalizeLoaded(q) == q
  {
    LoadedNamesDistinct();
    var r := NormalizeLoaded(q);
    assert r.Keys == q.Keys;
    assert forall k :: k in r ==> r[k] == q[k];
  }

  /** `String(v || fallback)`. */
  function TextOr(v: Value, fallback: Value): string {
    ToStr(Or(v, fallback))
  }

  /** The fields of an imported record. */
  const ImportedFields: set<string> :=
    {"id", "firstName", "surname", "seniority", "pos", "intl", "potMin", "potMax", "active", "cost_gbp", "sale_gbp", "createdAt"}

  /** One field of an imported record (app.js:755-767). */
  function ImportedField(x: Record, k: string, freshId: string, now: real): Value {
    if k == "id" then Str(TextOr(Get(x, "id"), Str(freshId)))
    else if k == "firstName" then Str(TextOr(Or(Get(x, "firstName"), Get(x, "first")), Str("")))
    else if k == "surname" then Str(TextOr(Or(Get(x, "surname"), Get(x, "last")), Str("")))
    else if k == "seniority" then (if Get(x, "seniority") == Str("Youth") then Str("Youth") else Str("Senior"))
    else if k == "pos" then Str(TextOr(Get(x, "pos"), Str("")))
    else if k == "active" then (if Get(x, "active") == Str("N") then Str("N") else Str("Y"))
    else if k == "cost_gbp" then Num(MoneyField(x, "cost_gbp", "cost") as real)
    else if k == "sale_gbp" then Num(MoneyField(x, "sale_gbp", "sale") as real)
    else if k == "createdAt" then (match ToNumber(Get(x, "createdAt")) case Finite(t) => Num(t) case NaN | Infinite(_) => Num(now))
    else Num(AsInt(Get(x, k), 0) as real)
  }

  /**
   * The map of the import handler (app.js:752-768): exactly the twelve
   * fields. `freshId` is the uid() used when the record has no id, `now` is
   * Date.now().
   */
  function NormalizeImported(x: Record, freshId: string, now: real): (r: Record)
    ensures r.Keys == ImportedFields
  {
    map k | k in ImportedFields :: ImportedField(x, k, freshId, now)
  }

  /** A normalised record's field holds the normalised value. */
  lemma ImportedGet(x: Record, k: string, freshId: string, now: real)
    requires k in ImportedFields
    ensures Get(NormalizeImported(x, freshId, now), k) == ImportedField(x, k, freshId, now)
  {
  }

  lemma ImportedStringFieldStable(x: Record, k: string, id1: string, t1: real, id2: string, t2: real)
    requires k == "pos" || k == "seniority" || k == "active" || k == "createdAt"
    ensures ImportedField(NormalizeImported(x, id1, t1), k, id2, t2) == ImportedField(x, k, id1, t1)
  {
    var y := NormalizeImported(x, id1, t1);
    var v := ImportedField(x, k, id1, t1);
    assert Get(y, k) == v by {
      ImportedGet(x, k, id1, t1);
    }
    if k == "pos" {
      assert v == Str(TextOr(Get(x, "pos"), Str("")));
    } else if k == "createdAt" {
      assert v.Num?;
    }
  }

  /** The alternative name keys of an import file are not fields of an imported record. */
  lemma AltNamesNotImported()
    ensures "first" !in ImportedFields && "last" !in ImportedFields
  {
    assert |"first"| == 5 && "last"[0] == 'l';
  }

  lemma ImportedNameStable(x: Record, k: string, id1: string, t1: real, id2: string, t2: real)
    requires k == "firstName" || k == "surname"
    ensures ImportedField(NormalizeImported(x, id1, t1), k, id2, t2) == ImportedField(x, k, id1, t1)
  {
    var y := NormalizeImported(x, id1, t1);
    var alt := if k == "firstName" then "first" else "last";
    var s := TextOr(Or(Get(x, k), Get(x, alt)), Str(""));
    assert ImportedField(x, k, id1, t1) == Str(s);
    assert Get(y, k) == Str(s) by {
      ImportedGet(x, k, id1, t1);
    }
    assert Get(y, alt) == Undefined by {
      AltNamesNotImported();
    }
    assert ImportedField(y, k, id2, t2) == Str(TextOr(Or(Str(s), Undefined), Str("")));
  }

  lemma ImportedIntFieldStable(x: Record, k: string, id1: string, t1: real, id2: string, t2: real)
    requires k == "intl" || k == "potMin" || k == "potMax"
    ensures ImportedField(NormalizeImported(x, id1, t1), k, id2, t2) == ImportedField(x, k, id1, t1)
  {
    ImportedGet(x, k, id1, t1);
    AsIntOfInt(AsInt(Get(x, k), 0), 0);
  }

  lemma ImportedMoneyFieldStable(x: Record, k: string, id1: string, t1: real, id2: string, t2: real)
    requires k == "cost_gbp" || k == "sale_gbp"
    ensures ImportedField(NormalizeImported(x, id1, t1), k, id2, t2) == ImportedField(x, k, id1, t1)
  {
    ImportedGet(x, k, id1, t1);
    if k == "cost_gbp" {
      AsIntOfInt(MoneyField(x, "cost_gbp", "cost"), 0);
    } else {
      AsIntOfInt(MoneyField(x, "sale_gbp", "sale"), 0);
    }
  }

  lemma ImportedIdStable(x: Record, id1: string, t1: real, id2: string, t2: real)
    requires id1 != ""
    ensures ImportedField(NormalizeImported(x, id1, t1), "id", id2, t2) == ImportedField(x, "id", id1, t1)
  {
    ImportedGet(x, "id", id1, t1);
    assert TextOr(Get(x, "id"), Str(id1)) != "";
  }

  /** Each field of a normalised record normalises to itself (uid() is never empty). */
  lemma ImportedFieldStable(x: Record, k: string, id1: string, t1: real, id2: string, t2: real)
    requires id1 != "" && k in ImportedFields
    ensures ImportedField(NormalizeImported(x, id1, t1), k, id2, t2) == ImportedField(x, k, id1, t1)
  {
    if k == "id" {
      ImportedIdStable(x, id1, t1, id2, t2);
    } else if k == "firstName" || k == "surname" {
      ImportedNameStable(x, k, id1, t1, id2, t2);
    } else if k == "cost_gbp" || k == "sale_gbp" {
      ImportedMoneyFieldStable(x, k, id1, t1, id2, t2);
    } else if k == "intl" || k == "potMin" || k == "potMax" {
      ImportedIntFieldStable(x, k, id1, t1, id2, t2);
    } else {
      ImportedStringFieldStable(x, k, id1, t1, id2, t2);
    }
  }

  /**
   * Importing a file exported from an imported list gives the same records:
   * the import normalisation is idempotent whatever uid() and Date.now()
   * return the second time (uid() is never empty).
   */
  lemma NormalizeImportedIdempotent(x: Record, id1: string, t1: real, id2: string, t2: real)
    requires id1 != ""
    ensures NormalizeImported(NormalizeImported(x, id1, t1), id2, t2) == NormalizeImported(x, id1, t1)
  {
    var y := NormalizeImported(x, id1, t1);
    var z := NormalizeImported(y, id2, t2);
    forall k | k in ImportedFields
      ensures z[k] == y[k]
    {
      ImportedFieldStable(x, k, id1, t1, id2, t2);
    }
  }
}
