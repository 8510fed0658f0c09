/**
 * The two JavaScript number conversions the key lifecycle relies on: the global
 * `parseInt` with no radix argument (the usage-limit field of a form is a string),
 * and `Number.prototype.toString` on integers (the edit form shows a stored limit).
 * Numbers are unbounded integers here; `NaN` is its own constructor.
 */
module JsNumbers {

  import opened Store

  /** A JavaScript number as far as integer parsing can produce one. */
  datatype Number = NaN | Int(value: int)

  /**
   * The white space and line terminators `parseInt` skips before the digits:
   * tab, vertical tab, form feed, the byte-order mark, line feed, carriage
   * return, the two Unicode line separators and the space separators.
   */
  predicate IsWhiteSpace(c: char)
  {
    || c == '\t' || c == '\n' || c == '\U{B}' || c == '\U{C}' || c == '\r'
    || c == ' ' || c == '\U{A0}' || c == '\U{1680}' || ('\U{2000}' <= c <= '\U{200A}')
    || c == '\U{2028}' || c == '\U{2029}' || c == '\U{202F}' || c == '\U{205F}'
    || c == '\U{3000}' || c == '\U{FEFF}'
  }

  /** Drops the leading white space of `s`. */
  function TrimStart(s: string): (r: string)
    ensures |r| <= |s| && r == s[|s| - |r|..]
    ensures forall i :: 0 <= i < |s| - |r| ==> IsWhiteSpace(s[i])
    ensures r == [] || !IsWhiteSpace(r[0])
  {
    if s != [] && IsWhiteSpace(s[0]) then TrimStart(s[1..]) else s
  }

  /** The value of `c` as a digit in any radix up to 36, or -1 if it is no digit. */
  function DigitValue(c: char): int
  {
    if '0' <= c <= '9' then c as int - '0' as int
    else if 'a' <= c <= 'z' then c as int - 'a' as int + 10
    else if 'A' <= c <= 'Z' then c as int - 'A' as int + 10
    else -1
  }

  predicate IsDigit(c: char, radix: nat)
  {
    0 <= DigitValue(c) < radix
  }

  predicate AllDigits(s: string, radix: nat)
  {
    forall i :: 0 <= i < |s| ==> IsDigit(s[i], radix)
  }

  /** Length of the longest prefix of `s` made of digits in `radix`. */
  function DigitRun(s: string, radix: nat): (n: nat)
    ensures n <= |s|
    ensures AllDigits(s[..n], radix)
    ensures n < |s| ==> !IsDigit(s[n], radix)
  {
    if s != [] && IsDigit(s[0], radix) then
      var m := DigitRun(s[1..], radix);
      assert s[..m + 1] == [s[0]] + s[1..][..m];
      m + 1
    else 0
  }

  /** The value of a digit string, most significant digit first. */
  function DigitsValue(ds: string, radix: nat): nat
    requires AllDigits(ds, radix)
  {
    if ds == [] then 0
    else DigitsValue(ds[..|ds| - 1], radix) * radix + DigitValue(ds[|ds| - 1])
  }

  /** `parseInt(s)` with no radix: white space, a sign, an optional `0x`, then digits. */
  function ParseInt(s: string): (n: Number)
    ensures n.Int? ==> TrimStart(s) != [] && (n.value < 0 ==> TrimStart(s)[0] == '-')
  {
    var t := TrimStart(s);
    var negative := t != [] && t[0] == '-';
    var unsigned := if t != [] && (t[0] == '-' || t[0] == '+') then t[1..] else t;
    var hex := |unsigned| >= 2 && unsigned[0] == '0' && (unsigned[1] == 'x' || unsigned[1] == 'X');
    var radix := if hex then 16 else 10;
    var body := if hex then unsigned[2..] else unsigned;
    var n := DigitRun(body, radix);
    if n == 0 then NaN
    else
      var m: int := DigitsValue(body[..n], radix);
      Int(if negative then -m else m)
  }

  /** `parseInt(undefined)` is `NaN`: an absent value converts to the text "undefined". */
  function ParseOptional(s: Option<string>): Number
  {
    match s
    case None => NaN
    case Some(t) => ParseInt(t)
  }

  /** The decimal digit character for `d`. */
  function DecimalDigit(d: nat): (c: char)
    requires d < 10
    ensures IsDigit(c, 10) && DigitValue(c) == d
  {
    ('0' as int + d) as char
  }

  /** The decimal text of a non-negative integer, without leading zeros. */
  function ToDecimal(n: nat): (r: string)
    ensures r != [] && AllDigits(r, 10)
    ensures DigitsValue(r, 10) == n
    ensures r[0] == '0' ==> n == 0 && |r| == 1
    decreases n
  {
    if n < 10 then [DecimalDigit(n)]
    else
      var r := ToDecimal(n / 10) + [DecimalDigit(n % 10)];
      assert r[..|r| - 1] == ToDecimal(n / 10);
      r
  }

  /** `n.toString()` for an integer `n`. */
  function IntToString(n: int): (r: string)
    ensures r != []
    ensures n < 0 <==> r[0] == '-'
  {
    if n < 0 then "-" + ToDecimal(-n) else ToDecimal(n)
  }

  /** Parsing the text of an integer gives the integer back. */
  lemma {:induction false} ParseIntToString(n: int)
    ensures ParseInt(IntToString(n)) == Int(n)
  {
    var ds := ToDecimal(if n < 0 then -n else n);
    var s := IntToString(n);
    assert !IsWhiteSpace(s[0]);
    assert TrimStart(s) == s;
    var unsigned := if n < 0 then s[1..] else s;
    assert unsigned == ds;
    assert !(|ds| >= 2 && ds[0] == '0');
    assert DigitRun(ds, 10) == |ds|;
    assert ds[..|ds|] == ds;
  }
}
