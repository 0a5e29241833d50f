/** Trimming, and joining and splitting at commas (Go's strings package, Python's str methods). */
module Strings {

  /** unicode.IsSpace. */
  predicate GoSpace(c: char) {
    var n := c as int;
    9 <= n <= 13 || n == 32 || n == 0x85 || n == 0xA0 || n == 0x1680 || 0x2000 <= n <= 0x200a
    || n == 0x2028 || n == 0x2029 || n == 0x202f || n == 0x205f || n == 0x3000
  }

  /** str.isspace also has the four ASCII separators. */
  predicate PythonSpace(c: char) {
    GoSpace(c) || 0x1c <= c as int <= 0x1f
  }

  function TrimLeft(s: string, space: char -> bool): string {
    if s != "" && space(s[0]) then TrimLeft(s[1..], space) else s
  }

  function TrimRight(s: string, space: char -> bool): string {
    if s != "" && space(s[|s| - 1]) then TrimRight(s[..|s| - 1], space) else s
  }

  function Strip(s: string, space: char -> bool): string {
    TrimRight(TrimLeft(s, space), space)
  }

  /** strings.TrimSpace. */
  function TrimSpace(s: string): string {
    Strip(s, GoSpace)
  }

  function JoinComma(xs: seq<string>): string {
    if xs == [] then "" else if |xs| == 1 then xs[0] else xs[0] + "," + JoinComma(xs[1..])
  }

  function CommaIndex(s: string): (n: nat)
    ensures n <= |s| && ',' !in s[..n] && (n < |s| ==> s[n] == ',')
  {
    if s == "" || s[0] == ',' then 0 else 1 + CommaIndex(s[1..])
  }

  function SplitComma(s: string): (r: seq<string>)
    ensures r != []
    decreases |s|
  {
    var n := CommaIndex(s);
    if n == |s| then [s] else [s[..n]] + SplitComma(s[n + 1..])
  }

  lemma CommaFree(x: string, rest: string)
    requires ',' !in x
    ensures CommaIndex(x) == |x| && CommaIndex(x + "," + rest) == |x|
  {
    var s := x + "," + rest;
    assert forall i :: 0 <= i < |x| ==> s[i] == x[i] && x[i] in x;
    assert CommaIndex(s) > |x| ==> s[|x|] in s[..CommaIndex(s)];
  }

  /** Splitting undoes joining. */
  lemma {:induction false} SplitJoin(xs: seq<string>)
    requires xs != [] && forall x :: x in xs ==> ',' !in x
    ensures SplitComma(JoinComma(xs)) == xs
  {
    hide CommaIndex;
    if |xs| == 1 {
      CommaFree(xs[0], "");
    } else {
      var x, rest := xs[0], JoinComma(xs[1..]);
      CommaFree(x, rest);
      var s := x + "," + rest;
      assert s[..|x|] == x && s[|x| + 1..] == rest;
      SplitJoin(xs[1..]);
    }
  }

  lemma {:induction false} TrimLeftEnds(s: string, space: char -> bool)
    ensures var t := TrimLeft(s, space); t != "" ==> !space(t[0])
  {
    if s != "" && space(s[0]) {
      TrimLeftEnds(s[1..], space);
    }
  }

  lemma {:induction false} TrimRightEnds(s: string, space: char -> bool)
    ensures var t := TrimRight(s, space);
            |t| <= |s| && (t != "" ==> t[0] == s[0] && !space(t[|t| - 1]))
  {
    if s != "" && space(s[|s| - 1]) {
      TrimRightEnds(s[..|s| - 1], space);
    }
  }

  /** A stripped text has no space at either end, and stays as it is. */
  lemma StripEnds(s: string, space: char -> bool)
    ensures var t := Strip(s, space); (t != "" ==> !space(t[0]) && !space(t[|t| - 1])) && Strip(t, space) == t
  {
    TrimLeftEnds(s, space);
    TrimRightEnds(TrimLeft(s, space), space);
    NothingToStrip(Strip(s, space), space);
  }

  lemma NothingToStrip(t: string, space: char -> bool)
    requires t != "" ==> !space(t[0]) && !space(t[|t| - 1])
    ensures Strip(t, space) == t
  {
  }

  predicate AllSpace(s: string, space: char -> bool) {
    forall i :: 0 <= i < |s| ==> space(s[i])
  }

  lemma {:induction false} TrimLeftParts(s: string, space: char -> bool)
    ensures var t := TrimLeft(s, space);
            |t| <= |s| && s[|s| - |t|..] == t && AllSpace(s[..|s| - |t|], space)
  {
    if s != "" && space(s[0]) {
      TrimLeftParts(s[1..], space);
      var k := |s| - |TrimLeft(s, space)|;
      assert s[..k] == [s[0]] + s[1..][..k - 1];
    }
  }

  lemma {:induction false} TrimRightParts(s: string, space: char -> bool)
    ensures var t := TrimRight(s, space);
            |t| <= |s| && s[..|t|] == t && AllSpace(s[|t|..], space)
  {
    if s != "" && space(s[|s| - 1]) {
      TrimRightParts(s[..|s| - 1], space);
      var k := |TrimRight(s, space)|;
      assert s[k..] == s[..|s| - 1][k..] + [s[|s| - 1]];
    }
  }

  /** A text is stripped of the space at its ends, all of it and nothing else. */
  lemma StripExactly(s: string, space: char -> bool)
    ensures exists before, after ::
              s == before + Strip(s, space) + after && AllSpace(before, space) && AllSpace(after, space)
    ensures var t := Strip(s, space); t != "" ==> !space(t[0]) && !space(t[|t| - 1])
  {
    TrimLeftParts(s, space);
    TrimRightParts(TrimLeft(s, space), space);
    StripEnds(s, space);
    var l, t := TrimLeft(s, space), Strip(s, space);
    assert s == s[..|s| - |l|] + t + l[|t|..];
  }
}
