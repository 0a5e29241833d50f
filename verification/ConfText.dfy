/** Characters, byte sizes and hard limits of the configuration dialect (conf/limits.go, conf/lexer.go).

    A source is a sequence of Unicode scalar values; `ByteLen` is its size once encoded in UTF-8. */
module ConfText {

  const MaxSourceBytes := 0x10_0000
  const MaxNestingDepth := 32
  const MaxStatements := 100_000
  const MaxArgs := 4_096
  const MaxStringBytes := 0x1_0000
  const MaxIdentBytes := 256

  /** Membership of the Unicode letter and decimal-digit categories above ASCII: an arbitrary table. */
  const UnicodeLetter: char -> bool
  const UnicodeDigit: char -> bool

  predicate AsciiLetter(c: char) {
    'a' <= c <= 'z' || 'A' <= c <= 'Z'
  }

  predicate AsciiDigit(c: char) {
    '0' <= c <= '9'
  }

  predicate IsLetter(c: char) {
    if c as int < 0x80 then AsciiLetter(c) else UnicodeLetter(c)
  }

  predicate IsDigit(c: char) {
    if c as int < 0x80 then AsciiDigit(c) else UnicodeDigit(c) && !UnicodeLetter(c)
  }

  predicate IsIdentStart(c: char) {
    c == '_' || IsLetter(c)
  }

  predicate IsIdentPart(c: char) {
    c == '_' || IsLetter(c) || IsDigit(c)
  }

  predicate IsSpace(c: char) {
    c == ' ' || c == '\t' || c == '\r' || c == '\n'
  }

  function RuneLen(c: char): nat {
    if c as int < 0x80 then 1
    else if c as int < 0x800 then 2
    else if c as int < 0x1_0000 then 3
    else 4
  }

  function ByteLen(s: string): nat {
    if s == "" then 0 else ByteLen(s[..|s| - 1]) + RuneLen(s[|s| - 1])
  }

  lemma EmptyBytes()
    ensures ByteLen("") == 0
  {
  }

  lemma {:induction false} ByteLenConcat(a: string, b: string)
    ensures ByteLen(a + b) == ByteLen(a) + ByteLen(b)
    decreases |b|
  {
    if b == "" {
      assert a + b == a;
    } else {
      assert (a + b)[..|a + b| - 1] == a + b[..|b| - 1];
      ByteLenConcat(a, b[..|b| - 1]);
    }
  }

  lemma {:induction false} WordBytes(s: string)
    ensures ByteLen(s) <= 4 * |s|
    decreases |s|
  {
    if s != "" {
      WordBytes(s[..|s| - 1]);
    }
  }

  ghost predicate NoNul(s: string) {
    forall k :: 0 <= k < |s| ==> s[k] != '\0'
  }

  ghost predicate AllIdentPart(s: string) {
    forall k :: 0 <= k < |s| ==> IsIdentPart(s[k])
  }

  /** A name that scans back as one identifier token (so neither boolean literal). */
  ghost predicate IsIdent(s: string) {
    && s != ""
    && IsIdentStart(s[0])
    && AllIdentPart(s)
    && ByteLen(s) <= MaxIdentBytes
    && s != "true"
    && s != "false"
  }

  ghost predicate IsBlank(s: string) {
    forall k :: 0 <= k < |s| ==> IsSpace(s[k])
  }
}
