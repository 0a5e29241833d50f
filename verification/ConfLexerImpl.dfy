/** The lexer as the program runs it: an offset, a line and a column that advance together (conf/lexer.go). */
module ConfLexerImpl {
  import opened Prelude
  import opened ConfText
  import opened ConfNumber
  import opened ConfAst
  import opened ConfLexer

  /** A method's outcome and final offset are those of the scanning function. */
  ghost predicate Agrees(r: Result<Token, ConfError>, i: nat, spec: Result<Step, ConfError>) {
    match spec
    case Err(e) => r == Err(e)
    case Ok(step) => r == Ok(step.token) && i == step.i
  }

  // ---- One step of each scanning function, by offset ----

  lemma SkipSpaceAt(src: string, i: nat)
    requires i < |src| && IsSpace(src[i])
    ensures SkipLen(src[i..]) == 1 + SkipLen(src[i + 1..])
  {
    assert src[i..][1..] == src[i + 1..];
  }

  lemma SkipCommentAt(src: string, i: nat, m: nat, e: nat)
    requires i < |src| && !IsSpace(src[i]) && m == CommentMark(src[i..]) && e == i + m + LineRest(src[i + m..])
    ensures SkipLen(src[i..]) == if m == 0 then 0 else e - i + SkipLen(src[e..])
  {
    hide LineRest, CommentMark;
    assert src[i..][m..] == src[i + m..];
    assert src[i..][e - i..] == src[e..];
  }

  lemma SkipLenAt(src: string, i: nat)
    requires i < |src|
    ensures IsSpace(src[i]) ==> SkipLen(src[i..]) == 1 + SkipLen(src[i + 1..])
    ensures !IsSpace(src[i]) ==>
              var m := CommentMark(src[i..]);
              if m == 0 then SkipLen(src[i..]) == 0
              else var e := i + m + LineRest(src[i + m..]); SkipLen(src[i..]) == e - i + SkipLen(src[e..])
  {
    hide LineRest, SkipLen;
    if IsSpace(src[i]) {
      SkipSpaceAt(src, i);
    } else {
      var m := CommentMark(src[i..]);
      SkipCommentAt(src, i, m, i + m + LineRest(src[i + m..]));
    }
  }

  lemma MarkAt(src: string, i: nat)
    requires i < |src|
    ensures CommentMark(src[i..]) ==
            if src[i] == '#' then 1 else if src[i] == '/' && i + 1 < |src| && src[i + 1] == '/' then 2 else 0
  {
    assert src[i..][0] == src[i];
    assert i + 1 < |src| ==> src[i..][1] == src[i + 1];
  }

  lemma IdentLenAt(src: string, i: nat)
    requires i < |src|
    ensures IdentLen(src[i..]) == if IsIdentPart(src[i]) then 1 + IdentLen(src[i + 1..]) else 0
  {
    assert src[i..][1..] == src[i + 1..];
  }

  lemma DigitLenAt(src: string, i: nat)
    requires i < |src|
    ensures DigitLen(src[i..]) == if IsDigit(src[i]) then 1 + DigitLen(src[i + 1..]) else 0
  {
    assert src[i..][1..] == src[i + 1..];
  }

  lemma DigitsAt(src: string, i: nat, k: nat)
    requires i + k <= |src|
    ensures DigitLen(src[i..][k..]) == DigitLen(src[i + k..])
  {
    assert src[i..][k..] == src[i + k..];
  }

  lemma PrefixAt(src: string, i: nat, k: nat)
    requires i + k <= |src|
    ensures src[i..][..k] == src[i..i + k]
  {
  }

  /** The number at offset `i`: no digits, a whole part alone, or a whole part and a fraction. */
  lemma NoNumberAt(src: string, i: nat, sign: nat)
    requires i + sign <= |src| && DigitLen(src[i + sign..]) == 0
    ensures ScanUnsigned(src[i..], sign) == Bad(ExpectedNumber, 0)
  {
    hide DigitLen;
    DigitsAt(src, i, sign);
  }

  lemma WholeAt(src: string, i: nat, sign: nat, whole: nat)
    requires i + sign < whole <= |src| && DigitLen(src[i + sign..]) == whole - i - sign
    requires whole < |src| ==> src[whole] != '.'
    ensures ScanUnsigned(src[i..], sign) == Found(Lexeme(Num, src[i..whole]), whole - i)
  {
    hide DigitLen;
    DigitsAt(src, i, sign);
    PrefixAt(src, i, whole - i);
  }

  lemma FractionAt(src: string, i: nat, sign: nat, whole: nat, end: nat)
    requires i + sign < whole < end <= |src| && DigitLen(src[i + sign..]) == whole - i - sign
    requires src[whole] == '.' && DigitLen(src[whole + 1..]) == end - whole - 1
    ensures ScanUnsigned(src[i..], sign) ==
            if end == whole + 1 then Bad(ExpectedFraction, 0) else Found(Lexeme(Num, src[i..end]), end - i)
  {
    hide DigitLen;
    DigitsAt(src, i, sign);
    DigitsAt(src, i, whole + 1 - i);
    PrefixAt(src, i, end - i);
  }

  /** The name after the first character at an offset. */
  lemma NameAt(src: string, i: nat)
    requires i < |src|
    ensures var n := IdentLen(src[i + 1..]);
            src[i..][1..] == src[i + 1..] && src[i..][1..][..n] == src[i + 1..i + 1 + n]
  {
    hide IdentLen;
    assert src[i..][1..] == src[i + 1..];
  }

  /** A name already over the limit stays over it when it grows. */
  lemma NameGrows(src: string, lo: nat, k: nat, hi: nat)
    requires lo <= k < hi <= |src|
    ensures ByteLen(src[lo..k + 1]) == ByteLen(src[lo..k]) + RuneLen(src[k])
    ensures ByteLen(src[lo..k + 1]) <= ByteLen(src[lo..hi])
  {
    assert src[lo..k + 1][..k - lo] == src[lo..k];
    assert src[lo..hi] == src[lo..k + 1] + src[k + 1..hi];
    ByteLenConcat(src[lo..k + 1], src[k + 1..hi]);
  }

  lemma PlainAt(src: string, i: nat, b: string, off: nat)
    requires i < |src| && src[i] != '\0' && src[i] != '\n' && src[i] != '"' && src[i] != '\\'
    ensures ScanStringRest(src[i..], b, off) ==
            if ByteLen(b) + RuneLen(src[i]) > MaxStringBytes then Bad(StringTooLong, 0)
            else ScanStringRest(src[i + 1..], b + [src[i]], off + 1)
  {
    hide ByteLen;
    assert src[i..][0] == src[i] && src[i..][1..] == src[i + 1..];
  }

  lemma EscapeAt(src: string, i: nat, b: string, off: nat)
    requires i < |src| && src[i] == '\\'
    ensures ScanStringRest(src[i..], b, off) ==
            if i + 1 == |src| then Bad(UnterminatedEscape, off + 1)
            else
              match Unescape(src[i + 1])
              case None => Bad(InvalidEscape, off + 2)
              case Some(out) =>
                if ByteLen(b) + RuneLen(out) > MaxStringBytes then Bad(StringTooLong, 0)
                else ScanStringRest(src[i + 2..], b + [out], off + 2)
  {
    hide ByteLen;
    var s := src[i..];
    assert s[0] == src[i];
    if i + 1 < |src| {
      assert s[1] == src[i + 1];
      assert s[2..] == src[i + 2..];
    }
  }

  lemma StringEnds(src: string, i: nat, b: string, off: nat)
    requires i <= |src|
    ensures var spec := ScanStringRest(src[i..], b, off);
            && (i == |src| ==> spec == Bad(UnclosedString, 0))
            && (i < |src| && src[i] == '\0' ==> spec == Bad(NulInString, off))
            && (i < |src| && src[i] == '\n' ==> spec == Bad(NewlineInString, 0))
            && (i < |src| && src[i] == '"' ==> spec == Found(Lexeme(Str, b), off + 1))
  {
  }

  class Lexer {
    const src: string
    var i: nat
    var line: int
    var col: int

    /** The incremental line and column are those of the text consumed. */
    ghost predicate Valid()
      reads this
    {
      i <= |src| && Pos(line, col) == PosAt(src, i)
    }

    constructor (src: string)
      ensures Valid()
      ensures this.src == src && i == 0
    {
      this.src := src;
      i, line, col := 0, 1, 1;
      new;
      assert src[..0] == "";
    }

    /** Reads one character; the zero character at the end of the source. */
    method Advance() returns (r: char)
      requires Valid()
      modifies this
      ensures Valid()
      ensures if old(i) == |src| then i == old(i) && r == '\0' else i == old(i) + 1 && r == src[old(i)]
    {
      if i == |src| {
        return '\0';
      }
      PosStep(src, i);
      r := src[i];
      i := i + 1;
      if r == '\n' {
        line := line + 1;
        col := 1;
      } else {
        col := col + 1;
      }
    }

    method SkipLineCommentRest()
      requires Valid()
      modifies this
      ensures Valid()
      ensures i == old(i) + LineRest(src[old(i)..])
    {
      while i < |src| && src[i] != '\n'
        invariant Valid()
        invariant i + LineRest(src[i..]) == old(i) + LineRest(src[old(i)..])
      {
        assert src[i..][1..] == src[i + 1..];
        var _ := Advance();
      }
    }

    method SkipSpaceAndComments()
      requires Valid()
      modifies this
      ensures Valid()
      ensures i == old(i) + SkipLen(src[old(i)..])
    {
      hide SkipLen, LineRest, PosAt, CommentMark;
      while i < |src|
        invariant Valid()
        invariant i + SkipLen(src[i..]) == old(i) + SkipLen(src[old(i)..])
        decreases |src| - i
      {
        SkipLenAt(src, i);
        MarkAt(src, i);
        if IsSpace(src[i]) {
          var _ := Advance();
        } else if src[i] == '#' {
          var _ := Advance();
          SkipLineCommentRest();
        } else if src[i] == '/' && i + 1 < |src| && src[i + 1] == '/' {
          var _ := Advance();
          var _ := Advance();
          SkipLineCommentRest();
        } else {
          return;
        }
      }
    }

    /** Collects identifier characters; `None` once they exceed the identifier limit. */
    method ScanName() returns (name: Option<string>)
      requires Valid()
      modifies this
      ensures Valid()
      ensures var hi := old(i) + IdentLen(src[old(i)..]);
              if ByteLen(src[old(i)..hi]) > MaxIdentBytes then name == None
              else name == Some(src[old(i)..hi]) && i == hi
    {
      hide IdentLen, ByteLen, PosAt;
      var b := "";
      EmptyBytes();
      ghost var lo, hi := i, i + IdentLen(src[i..]);
      while i < |src| && IsIdentPart(src[i])
        invariant Valid() && lo <= i
        invariant b == src[lo..i] && ByteLen(b) <= MaxIdentBytes
        invariant i + IdentLen(src[i..]) == hi
      {
        IdentLenAt(src, i);
        NameGrows(src, lo, i, hi);
        if ByteLen(b) + RuneLen(src[i]) > MaxIdentBytes {
          return None;
        }
        b := b + [src[i]];
        assert b == src[lo..i + 1];
        var _ := Advance();
      }
      if i < |src| {
        IdentLenAt(src, i);
      }
      return Some(b);
    }

    method ScanAt(start: Pos) returns (r: Result<Token, ConfError>)
      requires Valid() && i < |src| && start == PosAt(src, i)
      modifies this
      ensures Valid()
      ensures Agrees(r, i, Report(src, old(i), ConfLexer.ScanAt(src[old(i)..])))
    {
      hide PosAt, IdentLen, ByteLen;
      ghost var at := i;
      var _ := Advance();
      NameAt(src, at);
      var name := ScanName();
      if name.None? {
        return Err(ConfError(IdentTooLong, start));
      }
      if name.value != "version" {
        return Err(ConfError(UnknownDirective, start));
      }
      return Ok(Token(AtVersion, "@version", start));
    }

    method ScanIdent(start: Pos) returns (r: Result<Token, ConfError>)
      requires Valid() && i < |src| && IsIdentStart(src[i]) && start == PosAt(src, i)
      modifies this
      ensures Valid()
      ensures Agrees(r, i, Report(src, old(i), ConfLexer.ScanIdent(src[old(i)..])))
    {
      ghost var s, lo := src[i..], i;
      assert s[..IdentLen(s)] == src[lo..lo + IdentLen(s)];
      var name := ScanName();
      if name.None? {
        return Err(ConfError(IdentTooLong, start));
      }
      var text := name.value;
      if text == "true" {
        return Ok(Token(True, text, start));
      } else if text == "false" {
        return Ok(Token(False, text, start));
      } else {
        return Ok(Token(Ident, text, start));
      }
    }

    /** Appends a run of digits to the builder, which holds the text since offset `lo`. */
    method ScanDigits(b: string, ghost lo: nat) returns (text: string, digits: nat)
      requires Valid() && lo <= i && b == src[lo..i]
      modifies this
      ensures Valid()
      ensures digits == DigitLen(src[old(i)..]) && i == old(i) + digits
      ensures text == src[lo..i]
    {
      hide DigitLen, PosAt;
      text, digits := b, 0;
      while i < |src| && IsDigit(src[i])
        invariant Valid() && i == old(i) + digits
        invariant text == src[lo..i]
        invariant digits + DigitLen(src[i..]) == DigitLen(src[old(i)..])
      {
        DigitLenAt(src, i);
        text := text + [src[i]];
        var _ := Advance();
        digits := digits + 1;
      }
      if i < |src| {
        DigitLenAt(src, i);
      }
    }

    method ScanNumber(start: Pos) returns (r: Result<Token, ConfError>)
      requires Valid() && i < |src| && start == PosAt(src, i)
      modifies this
      ensures Valid()
      ensures Agrees(r, i, Report(src, old(i), ConfLexer.ScanNumber(src[old(i)..])))
    {
      hide DigitLen, PosAt, ScanUnsigned;
      ghost var at := i;
      ghost var sign := if src[i] == '-' then 1 else 0;
      var b := "";
      if src[i] == '-' {
        b := "-";
        var _ := Advance();
      }
      var text, digits := ScanDigits(b, at);
      if digits == 0 {
        NoNumberAt(src, at, sign);
        return Err(ConfError(ExpectedNumber, start));
      }
      ghost var whole := i;
      if i < |src| && src[i] == '.' {
        text := text + ".";
        var _ := Advance();
        var frac;
        text, frac := ScanDigits(text, at);
        FractionAt(src, at, sign, whole, i);
        if frac == 0 {
          return Err(ConfError(ExpectedFraction, start));
        }
      } else {
        WholeAt(src, at, sign, whole);
      }
      return Ok(Token(Num, text, start));
    }

    method ScanString(start: Pos) returns (r: Result<Token, ConfError>)
      requires Valid() && i < |src| && start == PosAt(src, i)
      modifies this
      ensures Valid()
      ensures Agrees(r, i, Report(src, old(i), ScanStringRest(src[old(i)..][1..], "", 1)))
    {
      hide PosAt, ByteLen, ScanStringRest, Unescape;
      ghost var at := i;
      var _ := Advance();
      assert src[at..][1..] == src[i..];
      var b := "";
      while true
        invariant Valid() && at < i
        invariant ScanStringRest(src[at..][1..], "", 1) == ScanStringRest(src[i..], b, i - at)
        decreases |src| - i
      {
        StringEnds(src, i, b, i - at);
        if i == |src| {
          return Err(ConfError(UnclosedString, start));
        }
        var c := src[i];
        if c == '\0' {
          return Err(ConfError(NulInString, Pos(line, col)));
        }
        if c == '\n' {
          return Err(ConfError(NewlineInString, start));
        }
        if c == '"' {
          var _ := Advance();
          return Ok(Token(Str, b, start));
        }
        if c == '\\' {
          EscapeAt(src, i, b, i - at);
          var _ := Advance();
          if i == |src| {
            return Err(ConfError(UnterminatedEscape, Pos(line, col)));
          }
          var esc := Advance();
          var out := Unescape(esc);
          if out.None? {
            return Err(ConfError(InvalidEscape, Pos(line, col - 1)));
          }
          if ByteLen(b) + RuneLen(out.value) > MaxStringBytes {
            return Err(ConfError(StringTooLong, start));
          }
          b := b + [out.value];
          continue;
        }
        PlainAt(src, i, b, i - at);
        if ByteLen(b) + RuneLen(c) > MaxStringBytes {
          return Err(ConfError(StringTooLong, start));
        }
        b := b + [c];
        var _ := Advance();
      }
    }

    /** The stateful lexer computes exactly the scanning function, positions included. */
    method Next() returns (r: Result<Token, ConfError>)
      requires Valid()
      modifies this
      ensures Valid()
      ensures Agrees(r, i, ConfLexer.Next(src, old(i)))
    {
      hide PosAt, ConfLexer.ScanAt, ConfLexer.ScanNumber, ConfLexer.ScanIdent, ScanStringRest, SkipLen;
      SkipSpaceAndComments();
      var start := Pos(line, col);
      if i == |src| {
        return Ok(Token(EOF, "", start));
      }
      var c := src[i];
      assert src[i..][0] == c;
      if c == '\0' {
        return Err(ConfError(NulInSource, start));
      }
      var punct := Punctuation(c);
      if punct.Some? {
        var _ := Advance();
        return Ok(Token(punct.value, [c], start));
      }
      if c == '@' {
        r := ScanAt(start);
      } else if c == '"' {
        r := ScanString(start);
      } else if c == '-' || IsDigit(c) {
        r := ScanNumber(start);
      } else if IsIdentStart(c) {
        r := ScanIdent(start);
      } else {
        r := Err(ConfError(UnexpectedCharacter, start));
      }
    }
  }
}
