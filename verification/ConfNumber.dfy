/** Decimal text: what strconv.Itoa writes and what strconv.ParseInt, Atoi and ParseFloat accept. */
module ConfNumber {
  import opened Prelude
  import opened ConfText

  const MinInt64 := -0x8000_0000_0000_0000
  const MaxInt64 := 0x7fff_ffff_ffff_ffff

  datatype Number = Integer(value: int) | Float

  function DigitLen(s: string): (n: nat)
    ensures n <= |s|
    ensures forall k :: 0 <= k < n ==> IsDigit(s[k])
    ensures n < |s| ==> !IsDigit(s[n])
  {
    if s == "" || !IsDigit(s[0]) then 0 else 1 + DigitLen(s[1..])
  }

  ghost predicate AllDigits(s: string) {
    forall k :: 0 <= k < |s| ==> IsDigit(s[k])
  }

  predicate AllAsciiDigits(s: string) {
    forall k :: 0 <= k < |s| ==> AsciiDigit(s[k])
  }

  /** Base-ten value of ASCII digits, most significant first. */
  function DigitsValue(s: string): nat
    requires AllAsciiDigits(s)
  {
    if s == "" then 0
    else DigitsValue(s[..|s| - 1]) * 10 + (s[|s| - 1] as int - '0' as int)
  }

  function Pow(base: nat, exp: nat): nat {
    if exp == 0 then 1 else base * Pow(base, exp - 1)
  }

  function Unsigned(s: string): string {
    if s != "" && s[0] == '-' then s[1..] else s
  }

  /** strconv.ParseInt(s, 10, 64) on text made of an optional minus sign and digits. */
  function ParseInt(s: string): Option<int> {
    var ds := Unsigned(s);
    if ds == "" || !AllAsciiDigits(ds) then None
    else
      var magnitude: int := DigitsValue(ds);
      var v := if ds == s then magnitude else -magnitude;
      if MinInt64 <= v <= MaxInt64 then Some(v) else None
  }

  /** Decimals of at least this magnitude round to an infinite double and are refused. */
  function FloatLimit(): nat {
    var big, half := Pow(2, 1024), Pow(2, 970);
    if half <= big then big - half else 0
  }

  function DotIndex(s: string): (n: nat)
    ensures n <= |s|
    ensures n < |s| ==> s[n] == '.'
    ensures forall k :: 0 <= k < n ==> s[k] != '.'
  {
    if s == "" || s[0] == '.' then 0 else 1 + DotIndex(s[1..])
  }

  /** strconv.ParseFloat succeeds; the double itself is not represented. */
  predicate FloatAccepted(s: string) {
    var ds := Unsigned(s);
    var n := DotIndex(ds);
    n < |ds| &&
    var digits, places := ds[..n] + ds[n + 1..], |ds| - n - 1;
    AllAsciiDigits(digits) && DigitsValue(digits) < FloatLimit() * Pow(10, places)
  }

  function ParseNumberLit(s: string): Option<Number> {
    if '.' in s then
      if FloatAccepted(s) then Some(Float) else None
    else
      match ParseInt(s)
      case None => None
      case Some(v) => Some(Integer(v))
  }

  /** `-?digits` or `-?digits.digits`: the text of a number token. */
  ghost predicate IsNumberText(s: string) {
    var ds := Unsigned(s);
    var n := DigitLen(ds);
    && n >= 1
    && (n < |ds| ==> ds[n] == '.' && n + 1 < |ds| && AllDigits(ds[n + 1..]))
  }

  function DigitChar(d: nat): (c: char)
    requires d < 10
    ensures AsciiDigit(c) && c as int - '0' as int == d
  {
    ('0' as int + d) as char
  }

  function ItoaNat(n: nat): (s: string)
    ensures s != "" && AllAsciiDigits(s)
    ensures DigitsValue(s) == n
  {
    if n < 10 then
      assert [DigitChar(n)][..0] == "";
      [DigitChar(n)]
    else
      var s := ItoaNat(n / 10) + [DigitChar(n % 10)];
      assert s[..|s| - 1] == ItoaNat(n / 10);
      s
  }

  /** strconv.Itoa. */
  function Itoa(n: int): string {
    if n < 0 then "-" + ItoaNat(-n) else ItoaNat(n)
  }

  lemma ItoaRoundTrip(n: int)
    requires MinInt64 <= n <= MaxInt64
    ensures ParseInt(Itoa(n)) == Some(n)
    ensures IsNumberText(Itoa(n)) && '.' !in Itoa(n)
    ensures ParseNumberLit(Itoa(n)) == Some(Integer(n))
  {
    var ds := ItoaNat(if n < 0 then -n else n);
    assert AsciiDigit(ds[0]);
    assert Unsigned(Itoa(n)) == ds;
    assert forall k :: 0 <= k < |ds| ==> AsciiDigit(ds[k]) && IsDigit(ds[k]);
    assert DigitLen(ds) == |ds|;
  }
}
