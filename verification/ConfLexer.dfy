/** Scanning, as functions of the remaining text (conf/lexer.go). Module ConfLexerImpl has the stateful lexer. */
module ConfLexer {
  import opened Prelude
  import opened ConfText
  import opened ConfNumber
  import opened ConfAst

  datatype TokenKind =
    | EOF | Ident | Str | Num | True | False
    | LParen | RParen | LBrace | RBrace | Comma | Semicolon | Colon | AtVersion

  datatype Token = Token(kind: TokenKind, text: string, pos: Pos)

  /** A token without its position. */
  datatype Lexeme = Lexeme(kind: TokenKind, text: string)

  function Bare(t: Token): Lexeme {
    Lexeme(t.kind, t.text)
  }

  // ---- Positions ----

  /** Number of line breaks in the text. */
  function Newlines(s: string): nat {
    if s == "" then 0 else Newlines(s[1..]) + (if s[0] == '\n' then 1 else 0)
  }

  /** Length of the text after its last line break. */
  function LastLineLen(s: string): (n: nat)
    ensures n <= |s|
  {
    if s == "" || s[|s| - 1] == '\n' then 0 else 1 + LastLineLen(s[..|s| - 1])
  }

  /** Position reached once `consumed` has been read. */
  function PosAfter(consumed: string): Pos {
    Pos(1 + Newlines(consumed), 1 + LastLineLen(consumed))
  }

  function PosAt(src: string, i: nat): Pos
    requires i <= |src|
  {
    PosAfter(src[..i])
  }

  lemma {:induction false} NewlinesSnoc(s: string, c: char)
    ensures Newlines(s + [c]) == Newlines(s) + (if c == '\n' then 1 else 0)
  {
    if s != "" {
      assert (s + [c])[1..] == s[1..] + [c];
      NewlinesSnoc(s[1..], c);
    }
  }

  /** Reading one more character moves the position by the incremental rule of the lexer. */
  lemma PosStep(src: string, i: nat)
    requires i < |src|
    ensures PosAt(src, i + 1) ==
            if src[i] == '\n' then Pos(PosAt(src, i).line + 1, 1)
            else Pos(PosAt(src, i).line, PosAt(src, i).column + 1)
  {
    assert src[..i + 1] == src[..i] + [src[i]];
    NewlinesSnoc(src[..i], src[i]);
    assert src[..i + 1][..i] == src[..i];
  }

  // ---- Blanks and comments ----

  /** Characters up to, and not including, the end of the line. */
  function LineRest(s: string): (n: nat)
    ensures n <= |s|
    ensures n < |s| ==> s[n] == '\n'
    ensures forall k :: 0 <= k < n ==> s[k] != '\n'
  {
    if s == "" || s[0] == '\n' then 0 else 1 + LineRest(s[1..])
  }

  /** Length of the comment marker at the head of the text, or 0. */
  function CommentMark(s: string): (n: nat)
    ensures n <= |s|
  {
    if s != "" && s[0] == '#' then 1
    else if |s| >= 2 && s[0] == '/' && s[1] == '/' then 2
    else 0
  }

  lemma TailOfTail(s: string, k: nat, n: nat)
    requires k + n <= |s|
    ensures s[k..][n..] == s[k + n..] && (k + n < |s| ==> s[k..][n] == s[k + n])
  {
  }

  /** Characters of white space and line comments before the next token. */
  function SkipLen(s: string): (n: nat)
    ensures n <= |s|
    ensures n < |s| ==> !IsSpace(s[n]) && CommentMark(s[n..]) == 0
    decreases |s|
  {
    if s == "" then 0
    else if IsSpace(s[0]) then
      var n := SkipLen(s[1..]);
      TailOfTail(s, 1, n);
      1 + n
    else
      var m := CommentMark(s);
      if m == 0 then TailOfTail(s, 0, 0); 0
      else
        var k := m + LineRest(s[m..]);
        var n := SkipLen(s[k..]);
        TailOfTail(s, k, n);
        k + n
  }

  // ---- Tokens ----

  /** `Bad.at` is the offset, from the start of the token, that the diagnostic points to. */
  datatype Scan = Found(lexeme: Lexeme, len: nat) | Bad(problem: Problem, at: nat)

  function IdentLen(s: string): (n: nat)
    ensures n <= |s|
    ensures AllIdentPart(s[..n])
    ensures n < |s| ==> !IsIdentPart(s[n])
  {
    if s == "" || !IsIdentPart(s[0]) then 0
    else
      var n := IdentLen(s[1..]);
      assert s[..1 + n] == [s[0]] + s[1..][..n];
      1 + n
  }

  function ScanAt(s: string): (r: Scan)
    requires s != ""
    ensures if r.Found? then 0 < r.len <= |s| else r.at <= |s|
  {
    var n := IdentLen(s[1..]);
    var name := s[1..][..n];
    if ByteLen(name) > MaxIdentBytes then Bad(IdentTooLong, 0)
    else if name != "version" then Bad(UnknownDirective, 0)
    else Found(Lexeme(AtVersion, "@version"), 1 + n)
  }

  function IdentKind(text: string): TokenKind {
    if text == "true" then True else if text == "false" then False else Ident
  }

  function ScanIdent(s: string): (r: Scan)
    requires s != "" && IsIdentStart(s[0])
    ensures if r.Found? then 0 < r.len <= |s| else r.at <= |s|
  {
    var n := IdentLen(s);
    if ByteLen(s[..n]) > MaxIdentBytes then Bad(IdentTooLong, 0)
    else Found(Lexeme(IdentKind(s[..n]), s[..n]), n)
  }

  function ScanNumber(s: string): (r: Scan)
    requires s != ""
    ensures if r.Found? then 0 < r.len <= |s| else r.at <= |s|
  {
    ScanUnsigned(s, if s[0] == '-' then 1 else 0)
  }

  /** Whole part and fraction after a sign of `sign` characters. */
  function ScanUnsigned(s: string, sign: nat): (r: Scan)
    requires sign <= |s|
    ensures if r.Found? then 0 < r.len <= |s| else r.at <= |s|
  {
    var whole := sign + DigitLen(s[sign..]);
    if whole == sign then Bad(ExpectedNumber, 0)
    else if whole < |s| && s[whole] == '.' then
      var n := whole + 1 + DigitLen(s[whole + 1..]);
      if n == whole + 1 then Bad(ExpectedFraction, 0)
      else Found(Lexeme(Num, s[..n]), n)
    else Found(Lexeme(Num, s[..whole]), whole)
  }

  function Unescape(c: char): Option<char> {
    if c == '"' || c == '\\' || c == '/' then Some(c)
    else if c == 'n' then Some('\n')
    else if c == 't' then Some('\t')
    else if c == 'r' then Some('\r')
    else None
  }

  /** The rest of a string literal: `text` is decoded so far, `off` characters are consumed. */
  function ScanStringRest(s: string, text: string, off: nat): (r: Scan)
    ensures r.Found? ==> off < r.len <= off + |s|
    ensures r.Bad? ==> r.at <= off + |s|
    decreases |s|
  {
    if s == "" then Bad(UnclosedString, 0)
    else if s[0] == '\0' then Bad(NulInString, off)
    else if s[0] == '\n' then Bad(NewlineInString, 0)
    else if s[0] == '"' then Found(Lexeme(Str, text), off + 1)
    else if s[0] == '\\' then
      if |s| == 1 then Bad(UnterminatedEscape, off + 1)
      else
        match Unescape(s[1])
        case None => Bad(InvalidEscape, off + 2)
        case Some(out) =>
          if ByteLen(text) + RuneLen(out) > MaxStringBytes then Bad(StringTooLong, 0)
          else ScanStringRest(s[2..], text + [out], off + 2)
    else if ByteLen(text) + RuneLen(s[0]) > MaxStringBytes then Bad(StringTooLong, 0)
    else ScanStringRest(s[1..], text + [s[0]], off + 1)
  }

  function Punctuation(c: char): Option<TokenKind> {
    match c
    case '(' => Some(LParen)
    case ')' => Some(RParen)
    case '{' => Some(LBrace)
    case '}' => Some(RBrace)
    case ',' => Some(Comma)
    case ';' => Some(Semicolon)
    case ':' => Some(Colon)
    case _ => None
  }

  /** The token at the head of the text, after blanks. */
  function ScanToken(s: string): (r: Scan)
    requires s != ""
    ensures if r.Found? then 0 < r.len <= |s| else r.at <= |s|
  {
    var c := s[0];
    if c == '\0' then Bad(NulInSource, 0)
    else if Punctuation(c).Some? then Found(Lexeme(Punctuation(c).value, [c]), 1)
    else if c == '@' then ScanAt(s)
    else if c == '"' then ScanStringRest(s[1..], "", 1)
    else if c == '-' || IsDigit(c) then ScanNumber(s)
    else if IsIdentStart(c) then ScanIdent(s)
    else Bad(UnexpectedCharacter, 0)
  }

  datatype Step = Step(token: Token, i: nat)

  function ErrorAt(src: string, start: nat, problem: Problem, at: nat): ConfError
    requires start + at <= |src|
  {
    var p := PosAt(src, start + at);
    ConfError(problem, if problem == InvalidEscape then Pos(p.line, p.column - 1) else p)
  }

  /** A scan at offset `start`, as a token or a diagnostic. */
  function Report(src: string, start: nat, scan: Scan): (r: Result<Step, ConfError>)
    requires start <= |src|
    requires scan.Bad? ==> start + scan.at <= |src|
  {
    match scan
    case Bad(problem, at) => Err(ErrorAt(src, start, problem, at))
    case Found(l, n) => Ok(Step(Token(l.kind, l.text, PosAt(src, start)), start + n))
  }

  /** The next token from offset `i` and the offset after it. */
  function Next(src: string, i: nat): (r: Result<Step, ConfError>)
    requires i <= |src|
    ensures r.Ok? ==> i <= r.value.i <= |src|
    ensures r.Ok? && r.value.token.kind != EOF ==> i < r.value.i
  {
    var start := i + SkipLen(src[i..]);
    if start == |src| then Ok(Step(Token(EOF, "", PosAt(src, start)), start))
    else Report(src, start, ScanToken(src[start..]))
  }
}
