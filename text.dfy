/**
 * The JavaScript string and number conversions the components rely on:
 * `toLowerCase` (ASCII letters only), `trim`, `split(',')`, `Array.join(',')`,
 * the decimal rendering of a number, `parseInt(s, 10)` and `Number(s)`.
 * Numbers are integers; `NaN` is a value of its own.
 */
module Text {
  import opened Wrappers

  /** A JavaScript number as the components use it: an integer or NaN. */
  datatype JsNum = Num(n: int) | NaN

  // ---------------------------------------------------------------- characters

  predicate IsDigit(c: char) { '0' <= c <= '9' }

  predicate IsSpace(c: char) { c == ' ' || c == '\t' || c == '\n' || c == '\r' }

  predicate AllDigits(s: string) { forall i | 0 <= i < |s| :: IsDigit(s[i]) }

  function LowerChar(c: char): char {
    if 'A' <= c <= 'Z' then (c as int + 32) as char else c
  }

  /** `toLowerCase`, restricted to ASCII letters. */
  function Lower(s: string): (r: string)
    ensures |r| == |s|
    ensures forall i | 0 <= i < |s| :: r[i] == LowerChar(s[i])
  {
    if s == [] then [] else [LowerChar(s[0])] + Lower(s[1..])
  }

  lemma {:induction false} LowerHasNoUpper(s: string)
    ensures forall i | 0 <= i < |s| :: !('A' <= Lower(s)[i] <= 'Z')
    ensures Lower(Lower(s)) == Lower(s)
  {
    if s != [] {
      LowerHasNoUpper(s[1..]);
    }
  }

  // ---------------------------------------------------------------- trim

  function TrimStart(s: string): (r: string)
    ensures |r| <= |s| && r == s[|s| - |r|..]
    ensures r != [] ==> !IsSpace(r[0])
  {
    if s != [] && IsSpace(s[0]) then TrimStart(s[1..]) else s
  }

  function TrimEnd(s: string): (r: string)
    ensures |r| <= |s| && r == s[..|r|]
    ensures r != [] ==> !IsSpace(r[|r| - 1])
  {
    if s != [] && IsSpace(s[|s| - 1]) then TrimEnd(s[..|s| - 1]) else s
  }

  /** `String.prototype.trim` for the four ASCII blanks. */
  function Trim(s: string): string {
    TrimEnd(TrimStart(s))
  }

  lemma TrimOfDigits(s: string)
    requires AllDigits(s)
    ensures Trim(s) == s
  {
  }

  // ---------------------------------------------------------------- split / join

  /** `s.split(',')`: the pieces between commas, at least one (`"".split(',')` is `[""]`). */
  function Split(s: string): (r: seq<string>)
    ensures |r| >= 1
    ensures forall i | 0 <= i < |r| :: ',' !in r[i]
  {
    if s == [] then [""]
    else if s[0] == ',' then [""] + Split(s[1..])
    else
      var t := Split(s[1..]);
      [[s[0]] + t[0]] + t[1..]
  }

  /** `parts.join(',')`; an empty array joins to `""`. */
  function Join(parts: seq<string>): string {
    if parts == [] then ""
    else if |parts| == 1 then parts[0]
    else parts[0] + "," + Join(parts[1..])
  }

  lemma {:induction false} JoinSplit(s: string)
    ensures Join(Split(s)) == s
  {
    if s != [] {
      JoinSplit(s[1..]);
      if s[0] != ',' {
        var t := Split(s[1..]);
        if |t| == 1 {
        } else {
          assert Join(t) == t[0] + "," + Join(t[1..]);
        }
      }
    }
  }

  lemma {:induction false} SplitPrepend(p: string, rest: string)
    requires ',' !in p
    ensures Split(p + "," + rest) == [p] + Split(rest)
  {
    if p == [] {
      assert p + "," + rest == [','] + rest;
    } else {
      SplitPrepend(p[1..], rest);
      var s := p + "," + rest;
      assert s[0] == p[0] && s[1..] == p[1..] + "," + rest;
      var t := Split(s[1..]);
      assert t[0] == p[1..] && t[1..] == Split(rest);
      assert [p[0]] + p[1..] == p;
    }
  }

  lemma {:induction false} SplitNoComma(p: string)
    requires ',' !in p
    ensures Split(p) == [p]
  {
    if p != [] {
      SplitNoComma(p[1..]);
      assert p[0] != ',';
      assert [p[0]] + p[1..] == p;
    }
  }

  /** Splitting a join gives the pieces back, as long as no piece holds a comma. */
  lemma {:induction false} SplitJoin(parts: seq<string>)
    requires |parts| >= 1
    requires forall i | 0 <= i < |parts| :: ',' !in parts[i]
    ensures Split(Join(parts)) == parts
  {
    if |parts| == 1 {
      SplitNoComma(parts[0]);
    } else {
      SplitJoin(parts[1..]);
      SplitPrepend(parts[0], Join(parts[1..]));
    }
  }

  // ---------------------------------------------------------------- decimal numbers

  function DigitChar(d: nat): char
    requires d < 10
  {
    ('0' as int + d) as char
  }

  /** The decimal digits of `n`, most significant first. */
  function ShowNat(n: nat): (r: string)
    ensures r != [] && AllDigits(r)
    decreases n
  {
    if n < 10 then [DigitChar(n)] else ShowNat(n / 10) + [DigitChar(n % 10)]
  }

  /** The value of a string of decimal digits. */
  function DigitsValue(s: string): nat
    requires AllDigits(s)
  {
    if s == [] then 0 else 10 * DigitsValue(s[..|s| - 1]) + (s[|s| - 1] as int - '0' as int)
  }

  lemma {:induction false} DigitsValueShow(n: nat)
    ensures DigitsValue(ShowNat(n)) == n
    decreases n
  {
    if n >= 10 {
      DigitsValueShow(n / 10);
      var s := ShowNat(n);
      assert s[..|s| - 1] == ShowNat(n / 10);
    }
  }

  /** How a number is rendered by `String(n)`, template literals and `join`. */
  function ShowInt(i: int): (r: string)
    ensures r != [] && ',' !in r && !IsSpace(r[0])
  {
    if i < 0 then "-" + ShowNat(-i) else ShowNat(i)
  }

  function ShowNum(x: JsNum): (r: string)
    ensures r != [] && ',' !in r
  {
    match x
    case Num(i) => ShowInt(i)
    case NaN => "NaN"
  }

  /** The longest prefix of `s` made of digits. */
  function DigitPrefix(s: string): (r: string)
    ensures |r| <= |s| && AllDigits(r) && r == s[..|r|]
    ensures |r| < |s| ==> !IsDigit(s[|r|])
  {
    if s != [] && IsDigit(s[0]) then [s[0]] + DigitPrefix(s[1..]) else []
  }

  function Signed(negative: bool, v: nat): int {
    if negative then -(v as int) else v
  }

  /**
   * `parseInt(s, 10)`: leading blanks skipped, an optional sign, then the longest
   * run of digits; NaN (here `None`) when there is no digit.
   */
  function ParseInt(s: string): Option<int> {
    var t := TrimStart(s);
    var negative := t != [] && t[0] == '-';
    var body := if t != [] && (t[0] == '-' || t[0] == '+') then t[1..] else t;
    var digits := DigitPrefix(body);
    if digits == [] then None else Some(Signed(negative, DigitsValue(digits)))
  }

  /**
   * `Number(s)` for decimal integers: blanks trimmed, `""` is 0, an optional sign
   * followed only by digits is that integer, anything else is NaN.
   */
  function NumberOf(s: string): JsNum {
    var t := Trim(s);
    if t == [] then Num(0)
    else if (t[0] == '-' || t[0] == '+') && |t| > 1 && AllDigits(t[1..]) then
      Num(Signed(t[0] == '-', DigitsValue(t[1..])))
    else if AllDigits(t) then Num(DigitsValue(t))
    else NaN
  }

  lemma DigitPrefixAll(s: string)
    requires AllDigits(s)
    ensures DigitPrefix(s) == s
  {
  }

  /** `parseInt` reads back what `String` wrote. */
  lemma ParseIntShow(i: int)
    ensures ParseInt(ShowInt(i)) == Some(i)
  {
    var s := ShowInt(i);
    var n: nat := if i < 0 then -i else i;
    assert TrimStart(s) == s;
    DigitsValueShow(n);
    DigitPrefixAll(ShowNat(n));
    if i < 0 {
      assert s[1..] == ShowNat(n);
    }
  }

  /** `trim` leaves a rendered integer as it is. */
  lemma TrimShowInt(i: int)
    ensures Trim(ShowInt(i)) == ShowInt(i)
  {
    var s := ShowInt(i);
    var d := ShowNat(if i < 0 then -i else i);
    assert s[|s| - 1] == d[|d| - 1];
    assert TrimStart(s) == s;
    assert TrimEnd(s) == s;
  }

  lemma NumberOfNaN()
    ensures NumberOf("NaN") == NaN
  {
    var s := "NaN";
    assert TrimStart(s) == s;
    assert TrimEnd(s) == s;
    assert !IsDigit(s[0]);
  }

  lemma NumberOfShowNat(n: nat)
    ensures NumberOf(ShowNat(n)) == Num(n)
  {
    DigitsValueShow(n);
    TrimOfDigits(ShowNat(n));
  }

  lemma NumberOfShowNegative(n: nat)
    requires n > 0
    ensures NumberOf("-" + ShowNat(n)) == Num(-(n as int))
  {
    var d := ShowNat(n);
    var s := "-" + d;
    DigitsValueShow(n);
    assert TrimStart(s) == s;
    assert s[|s| - 1] == d[|d| - 1];
    assert TrimEnd(s) == s;
    assert s[1..] == d;
  }

  /** `Number` reads back what `String` wrote, NaN included. */
  lemma NumberOfShow(x: JsNum)
    ensures NumberOf(ShowNum(x)) == x
  {
    match x
    case NaN => NumberOfNaN();
    case Num(i) =>
      if i < 0 {
        NumberOfShowNegative(-i);
      } else {
        NumberOfShowNat(i);
      }
  }

  // ---------------------------------------------------------------- number lists

  function ShowNums(xs: seq<JsNum>): (r: seq<string>)
    ensures |r| == |xs|
    ensures forall i | 0 <= i < |xs| :: r[i] == ShowNum(xs[i])
  {
    seq(|xs|, i requires 0 <= i < |xs| => ShowNum(xs[i]))
  }

  function NumbersOf(parts: seq<string>): (r: seq<JsNum>)
    ensures |r| == |parts|
    ensures forall i | 0 <= i < |parts| :: r[i] == NumberOf(parts[i])
  {
    seq(|parts|, i requires 0 <= i < |parts| => NumberOf(parts[i]))
  }

  /** `xs.join(',')` for an array of numbers. */
  function JoinNums(xs: seq<JsNum>): (r: string)
    ensures r == "" <==> xs == []
  {
    var r := Join(ShowNums(xs));
    assert xs != [] ==> r != "" by {
      if xs != [] {
        if |xs| > 1 {
          assert r == ShowNum(xs[0]) + "," + Join(ShowNums(xs)[1..]);
        }
      }
    }
    r
  }

  /** `String(v).split(',').map(Number)`. */
  function SplitNums(s: string): seq<JsNum> {
    NumbersOf(Split(s))
  }

  /** Every array of numbers survives `join(',')` followed by `split(',').map(Number)`. */
  lemma SplitNumsJoinNums(xs: seq<JsNum>)
    requires xs != []
    ensures SplitNums(JoinNums(xs)) == xs
  {
    SplitJoin(ShowNums(xs));
    forall i | 0 <= i < |xs| ensures SplitNums(JoinNums(xs))[i] == xs[i] {
      NumberOfShow(xs[i]);
    }
  }
}
