/**
 * The few JavaScript built-ins on strings and numbers that the services rely
 * on: `parseInt(s, 10)`, `String(n)` on an integer, `s.repeat(n)`,
 * `Array(n).fill(v)` and `parts.join(sep)`.
 */
module JsText {

  /** A JavaScript number as far as the model needs one: an integer, or NaN. */
  datatype Num = Int(value: int) | NaN

  predicate IsDigit(c: char) {
    '0' <= c <= '9'
  }

  function DigitValue(c: char): nat
    requires IsDigit(c)
  {
    (c as int) - ('0' as int)
  }

  function DigitChar(d: nat): (c: char)
    requires d < 10
    ensures IsDigit(c) && DigitValue(c) == d
  {
    (('0' as int) + d) as char
  }

  /** JavaScript's StrWhiteSpaceChar: the white space and line terminators that parseInt skips. */
  predicate IsJsSpace(c: char) {
    || c == '\t' || c == '\n' || c == '\U{B}' || c == '\U{C}' || c == '\r' || c == ' '
    || c == '\U{A0}' || c == '\U{1680}' || ('\U{2000}' <= c <= '\U{200A}')
    || c == '\U{2028}' || c == '\U{2029}' || c == '\U{202F}' || c == '\U{205F}'
    || c == '\U{3000}' || c == '\U{FEFF}'
  }

  /** `s` without its leading white space. */
  function TrimStart(s: string): (t: string)
    ensures |t| <= |s| && t == s[|s| - |t|..]
    ensures t == [] || !IsJsSpace(t[0])
    ensures forall i :: 0 <= i < |s| - |t| ==> IsJsSpace(s[i])
  {
    if s != [] && IsJsSpace(s[0]) then TrimStart(s[1..]) else s
  }

  /** The longest prefix of `s` made of decimal digits. */
  function DigitPrefix(s: string): (d: string)
    ensures d <= s
    ensures forall i :: 0 <= i < |d| ==> IsDigit(d[i])
    ensures |d| < |s| ==> !IsDigit(s[|d|])
  {
    if s != [] && IsDigit(s[0]) then [s[0]] + DigitPrefix(s[1..]) else []
  }

  predicate AllDigits(s: string) {
    forall i :: 0 <= i < |s| ==> IsDigit(s[i])
  }

  /** The value of a string of decimal digits, most significant first. */
  function DigitsValue(d: string): nat
    requires AllDigits(d)
  {
    if d == [] then 0 else DigitsValue(d[..|d| - 1]) * 10 + DigitValue(d[|d| - 1])
  }

  /** `t` without one leading sign character, if it has one. */
  function Unsigned(t: string): string {
    if t != [] && (t[0] == '-' || t[0] == '+') then t[1..] else t
  }

  /**
   * `parseInt(s, 10)`: skip leading white space, take an optional sign, then
   * the longest run of decimal digits; NaN when that run is empty. Whatever
   * follows the digits is ignored.
   */
  function ParseInt(s: string): (n: Num)
    ensures n.NaN? <==> var b := Unsigned(TrimStart(s)); b == [] || !IsDigit(b[0])
  {
    var t := TrimStart(s);
    var digits := DigitPrefix(Unsigned(t));
    if digits == [] then NaN
    else
      var v: int := DigitsValue(digits);
      Int(if t[0] == '-' then -v else v)
  }

  /** The decimal digits of `n`, without leading zeros. */
  function NatToString(n: nat): (s: string)
    ensures s != [] && AllDigits(s)
    ensures |s| > 1 ==> s[0] != '0'
  {
    if n < 10 then [DigitChar(n)] else NatToString(n / 10) + [DigitChar(n % 10)]
  }

  /** `String(n)` for an integer `n`. */
  function IntToString(n: int): string {
    if n < 0 then "-" + NatToString(-n) else NatToString(n)
  }

  lemma {:induction false} NatToStringValue(n: nat)
    ensures DigitsValue(NatToString(n)) == n
  {
    if n >= 10 {
      var s := NatToString(n);
      assert s[..|s| - 1] == NatToString(n / 10);
      NatToStringValue(n / 10);
    }
  }

  lemma DigitPrefixAll(d: string)
    requires AllDigits(d)
    ensures DigitPrefix(d) == d
  {
  }

  /** An optional minus sign followed by a non-empty run of digits parses to the signed value of the digits. */
  lemma ParseSignedDigits(negative: bool, digits: string)
    requires digits != [] && AllDigits(digits)
    ensures ParseInt((if negative then "-" else "") + digits)
         == Int(if negative then -(DigitsValue(digits) as int) else DigitsValue(digits))
  {
    var s := (if negative then "-" else "") + digits;
    var c := s[0];
    assert c == '-' || IsDigit(c) by {
      if !negative {
        assert c == digits[0];
      }
    }
    assert !IsJsSpace(c);
    assert TrimStart(s) == s;
    if negative {
      assert Unsigned(s) == s[1..] == digits;
    } else {
      assert Unsigned(s) == digits;
    }
    DigitPrefixAll(digits);
  }

  /** `parseInt(String(n), 10) == n`: the integer formatting and parsing are inverse. */
  lemma ParseIntToString(n: int)
    ensures ParseInt(IntToString(n)) == Int(n)
  {
    var m := if n < 0 then -n else n;
    NatToStringValue(m);
    ParseSignedDigits(n < 0, NatToString(m));
    assert IntToString(n) == (if n < 0 then "-" else "") + NatToString(m);
  }

  /** `String(n)` is injective: two integers with the same text are equal. */
  lemma IntToStringInjective(m: int, n: int)
    requires IntToString(m) == IntToString(n)
    ensures m == n
  {
    ParseIntToString(m);
    ParseIntToString(n);
  }

  /** `Array(n).fill(v)`: `n` copies of `v`. */
  function Fill<T>(n: nat, v: T): (s: seq<T>)
    ensures |s| == n && forall i :: 0 <= i < n ==> s[i] == v
  {
    seq(n, _ => v)
  }

  /** `s.repeat(n)`: `n` copies of `s`, one after the other. */
  function Repeat(s: string, n: nat): (r: string)
    ensures |r| == |s| * n
  {
    if n == 0 then "" else Repeat(s, n - 1) + s
  }

  /** Repeating a one-character string `n` times gives `n` copies of that character. */
  lemma {:induction false} RepeatChar(c: char, n: nat)
    ensures Repeat([c], n) == Fill(n, c)
  {
    if n > 0 {
      RepeatChar(c, n - 1);
    }
  }

  /** `parts.join(sep)`: the parts with `sep` between consecutive ones; `""` for no parts. */
  function Join(parts: seq<string>, sep: string): string {
    if |parts| == 0 then ""
    else if |parts| == 1 then parts[0]
    else Join(parts[..|parts| - 1], sep) + sep + parts[|parts| - 1]
  }

  /** The number of occurrences of `c` in `s`. */
  function Count(s: string, c: char): nat {
    if s == [] then 0 else Count(s[..|s| - 1], c) + (if s[|s| - 1] == c then 1 else 0)
  }

  lemma {:induction false} CountAppend(a: string, b: string, c: char)
    ensures Count(a + b, c) == Count(a, c) + Count(b, c)
  {
    if b != [] {
      assert (a + b)[..|a + b| - 1] == a + b[..|b| - 1];
      CountAppend(a, b[..|b| - 1], c);
    } else {
      assert a + b == a;
    }
  }

  /**
   * Joining `n` copies of a piece with a one-character separator gives a string
   * of `n * |piece| + (n - 1)` characters in which each character of the piece
   * occurs `n` times as often as in the piece (the separator not being it).
   */
  lemma {:induction false} JoinFillCount(n: nat, piece: string, sep: char, c: char)
    requires n >= 1 && sep != c
    ensures |Join(Fill(n, piece), [sep])| == n * |piece| + n - 1
    ensures Count(Join(Fill(n, piece), [sep]), c) == n * Count(piece, c)
  {
    if n > 1 {
      assert Fill(n, piece)[..n - 1] == Fill(n - 1, piece);
      JoinFillCount(n - 1, piece, sep, c);
      var init := Join(Fill(n - 1, piece), [sep]);
      assert Join(Fill(n, piece), [sep]) == init + [sep] + piece;
      CountAppend(init, [sep], c);
      CountAppend(init + [sep], piece, c);
      assert Count([sep], c) == Count([], c) + 0;
      assert (n - 1) * |piece| + |piece| == n * |piece|;
      assert (n - 1) * Count(piece, c) + Count(piece, c) == n * Count(piece, c);
    }
  }
}
