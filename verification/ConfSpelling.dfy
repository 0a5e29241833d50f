/** How tokens are written: their spellings, and the blanks and comments between them. A text scans to some tokens
    exactly when it is a way of writing them (conf/lexer.go). */
module ConfSpelling {
  import opened ConfText
  import opened ConfNumber
  import opened ConfLexer
  import opened ConfTokens

  // ---- Spellings ----

  /** What the character after a backslash stands for. */
  predicate EscapeOf(e: char, c: char) {
    || (e == c && (c == '"' || c == '\\' || c == '/'))
    || (e == 'n' && c == '\n')
    || (e == 't' && c == '\t')
    || (e == 'r' && c == '\r')
  }

  /** `q` between quotes stands for `v`. */
  ghost predicate Quoted(q: string, v: string) {
    if q == "" then v == ""
    else
      && v != ""
      && if q[0] == '\\' then |q| >= 2 && EscapeOf(q[1], v[0]) && Quoted(q[2..], v[1..])
         else q[0] == v[0] && q[0] != '"' && q[0] != '\n' && q[0] != '\0' && Quoted(q[1..], v[1..])
  }

  ghost predicate Spells(t: string, l: Lexeme) {
    match l.kind
    case EOF => false
    case Ident => t == l.text && IsIdent(t)
    case True => t == l.text == "true"
    case False => t == l.text == "false"
    case Num => t == l.text && IsNumberText(t)
    case Str =>
      |t| >= 2 && t[0] == '"' == t[|t| - 1] && Quoted(t[1..|t| - 1], l.text) && ByteLen(l.text) <= MaxStringBytes
    case AtVersion => t == l.text == "@version"
    case LParen => t == l.text == "("
    case RParen => t == l.text == ")"
    case LBrace => t == l.text == "{"
    case RBrace => t == l.text == "}"
    case Comma => t == l.text == ","
    case Semicolon => t == l.text == ";"
    case Colon => t == l.text == ":"
  }

  /** What follows does not run into the token: words need a character that is not part of one, numbers one that is
      neither a digit nor, without a fraction, a point. */
  predicate Apart(l: Lexeme, rest: string) {
    rest == "" ||
    match l.kind
    case Ident | True | False | AtVersion => !IsIdentPart(rest[0])
    case Num => !IsDigit(rest[0]) && ('.' in l.text || rest[0] != '.')
    case _ => true
  }

  /** A line comment starts here. */
  predicate Comments(s: string) {
    s != "" && (s[0] == '#' || (|s| >= 2 && s[0] == '/' == s[1]))
  }

  ghost predicate LineEnd(s: string, k: nat) {
    k < |s| && s[k] == '\n' && forall i :: 0 <= i < k ==> s[i] != '\n'
  }

  /** Blanks and comments; a comment runs to the end of its line, and the last one may run to the end of the text. */
  ghost predicate Gap(s: string, last: bool)
    decreases |s|
  {
    || s == ""
    || (IsSpace(s[0]) && Gap(s[1..], last))
    || (Comments(s) && exists k: nat :: LineEnd(s, k) && Gap(s[k + 1..], last))
    || (Comments(s) && last && forall i :: 0 <= i < |s| ==> s[i] != '\n')
  }

  /** The text is these tokens, each in some spelling, with gaps between them. */
  ghost predicate Written(s: string, toks: seq<Lexeme>)
    decreases |toks|, 1
  {
    if toks == [] then Gap(s, true) else exists g: nat, n: nat :: WrittenFrom(s, toks, g, n)
  }

  /** The first token comes after `g` characters and takes `n`. */
  ghost predicate WrittenFrom(s: string, toks: seq<Lexeme>, g: nat, n: nat)
    requires toks != []
    decreases |toks|, 0
  {
    && 1 <= n && g + n <= |s|
    && Gap(s[..g], false)
    && Spells(s[g..g + n], toks[0]) && Apart(toks[0], s[g + n..])
    && Written(s[g + n..], toks[1..])
  }

  // ---- Spelled tokens scan ----

  lemma {:induction false} IdentLenOf(name: string, s: string)
    requires AllIdentPart(name) && (s == "" || !IsIdentPart(s[0]))
    ensures IdentLen(name + s) == |name|
  {
    if name == "" {
      assert name + s == s;
    } else {
      IdentLenOf(name[1..], s);
      assert (name + s)[1..] == name[1..] + s;
    }
  }

  lemma {:induction false} DigitLenOf(ds: string, s: string)
    requires AllDigits(ds)
    requires s == "" || !IsDigit(s[0])
    ensures DigitLen(ds + s) == |ds|
  {
    if ds == "" {
      assert ds + s == s;
    } else {
      DigitLenOf(ds[1..], s);
      assert (ds + s)[1..] == ds[1..] + s;
    }
  }

  /** A number's text is a sign, digits, and possibly a point and more digits. */
  ghost predicate NumberParts(sign: string, whole: string, frac: string) {
    (sign == "" || sign == "-") && whole != "" && AllDigits(whole)
    && (frac == "" || (frac[0] == '.' && |frac| > 1 && AllDigits(frac[1..])))
  }

  lemma SplitNumber(t: string) returns (sign: string, whole: string, frac: string)
    requires IsNumberText(t)
    ensures NumberParts(sign, whole, frac) && t == sign + whole + frac
  {
    hide DigitLen;
    var ds := Unsigned(t);
    var n := DigitLen(ds);
    sign, whole, frac := t[..|t| - |ds|], ds[..n], ds[n..];
    assert n < |ds| ==> frac[1..] == ds[n + 1..];
  }

  lemma JoinNumber(sign: string, whole: string, frac: string)
    requires NumberParts(sign, whole, frac)
    ensures IsNumberText(sign + whole + frac)
  {
    hide DigitLen;
    var t := sign + whole + frac;
    assert whole[0] != '-';
    assert Unsigned(t) == whole + frac;
    DigitLenOf(whole, frac);
    assert frac != "" ==> (whole + frac)[|whole| + 1..] == frac[1..];
  }

  lemma ScanWhole(sign: string, whole: string, s: string)
    requires NumberParts(sign, whole, "") && (s == "" || (!IsDigit(s[0]) && s[0] != '.'))
    ensures ScanUnsigned(sign + whole + s, |sign|) == Found(Lexeme(Num, sign + whole), |sign + whole|)
  {
    hide DigitLen;
    var x := sign + whole + s;
    assert x[|sign|..] == whole + s;
    DigitLenOf(whole, s);
    assert x[..|sign + whole|] == sign + whole;
  }

  /** The pieces of a number with a fraction, by offset. */
  lemma FractionSlices(sign: string, whole: string, frac: string, s: string)
    requires frac != ""
    ensures var x := sign + whole + (frac + s);
            && x[|sign|..] == whole + (frac + s)
            && x[|sign| + |whole|] == frac[0]
            && x[|sign| + |whole| + 1..] == frac[1..] + s
            && x[..|sign| + |whole| + |frac|] == sign + whole + frac
  {
  }

  lemma ScanFraction(sign: string, whole: string, frac: string, s: string)
    requires NumberParts(sign, whole, frac) && frac != "" && (s == "" || !IsDigit(s[0]))
    ensures ScanUnsigned(sign + whole + (frac + s), |sign|) ==
            Found(Lexeme(Num, sign + whole + frac), |sign + whole + frac|)
  {
    hide DigitLen;
    FractionSlices(sign, whole, frac, s);
    DigitLenOf(whole, frac + s);
    DigitLenOf(frac[1..], s);
  }

  lemma ScansNumber(t: string, s: string)
    requires IsNumberText(t) && Apart(Lexeme(Num, t), s)
    ensures ScanNumber(t + s) == Found(Lexeme(Num, t), |t|)
    ensures t[0] == '-' || IsDigit(t[0])
  {
    hide ScanUnsigned, DigitLen;
    var sign, whole, frac := SplitNumber(t);
    assert (t + s)[0] == (sign + whole)[0];
    assert (t + s)[0] == '-' <==> sign == "-";
    if frac == "" {
      assert sign + whole + frac == sign + whole;
      NoPoint(sign, whole);
      ScanWhole(sign, whole, s);
    } else {
      assert t + s == sign + whole + (frac + s);
      ScanFraction(sign, whole, frac, s);
    }
  }

  lemma NoPoint(sign: string, whole: string)
    requires NumberParts(sign, whole, "")
    ensures '.' !in sign + whole
  {
    assert !IsDigit('.');
  }

  lemma CharBytes(text: string, v: string)
    requires v != ""
    ensures ByteLen(text + [v[0]]) == ByteLen(text) + RuneLen(v[0])
    ensures ByteLen(v) == RuneLen(v[0]) + ByteLen(v[1..])
  {
    var c := [v[0]];
    assert c[..0] == "";
    ByteLenConcat(text, c);
    ByteLenConcat(c, v[1..]);
    assert v == c + v[1..];
  }

  lemma {:induction false} ScansQuoted(q: string, v: string, text: string, off: nat, rest: string)
    requires Quoted(q, v) && ByteLen(text) + ByteLen(v) <= MaxStringBytes
    requires rest != "" && rest[0] == '"'
    ensures ScanStringRest(q + rest, text, off) == Found(Lexeme(Str, text + v), off + |q| + 1)
    decreases |q|
  {
    hide ByteLen;
    if q == "" {
      assert q + rest == rest && text + v == text;
    } else {
      CharBytes(text, v);
      assert text + [v[0]] + v[1..] == text + v;
      var k := if q[0] == '\\' then 2 else 1;
      assert (q + rest)[k..] == q[k..] + rest;
      ScansQuoted(q[k..], v[1..], text + [v[0]], off + k, rest);
    }
  }

  lemma SpelledStart(t: string, l: Lexeme)
    requires Spells(t, l)
    ensures t != "" && !IsSpace(t[0]) && t[0] != '#' && t[0] != '/'
  {
    hide ByteLen, Quoted;
    if l.kind == Num {
      var sign, whole, frac := SplitNumber(t);
    }
  }

  lemma StartsWord(c: char)
    requires IsIdentStart(c)
    ensures Punctuation(c).None? && c != '\0' && c != '@' && c != '"' && c != '-' && !IsDigit(c)
  {
  }

  lemma ScansWord(name: string, s: string)
    requires name != "" && IsIdentStart(name[0]) && AllIdentPart(name) && ByteLen(name) <= MaxIdentBytes
    requires s == "" || !IsIdentPart(s[0])
    ensures ScanToken(name + s) == Found(Lexeme(IdentKind(name), name), |name|)
  {
    hide IdentLen, ByteLen, Punctuation, IsDigit, ScanStringRest, ScanNumber, ScanAt, IdentKind;
    var t := name + s;
    IdentLenOf(name, s);
    assert t[..|name|] == name;
    assert t[0] == name[0];
    StartsWord(t[0]);
  }

  lemma ScansDirective(s: string)
    requires s == "" || !IsIdentPart(s[0])
    ensures ScanToken("@version" + s) == Found(Lexeme(AtVersion, "@version"), 8)
  {
    var t := "@version" + s;
    assert t[1..] == "version" + s;
    IdentLenOf("version", s);
    assert t[1..][..7] == "version";
    WordBytes("version");
  }

  lemma ScansString(q: string, v: string, s: string)
    requires Quoted(q, v) && ByteLen(v) <= MaxStringBytes
    ensures ScanToken("\"" + q + "\"" + s) == Found(Lexeme(Str, v), |q| + 2)
  {
    hide ScanStringRest, Quoted;
    EmptyBytes();
    hide ByteLen;
    var t := "\"" + q + "\"" + s;
    ScansQuoted(q, v, "", 1, "\"" + s);
    assert "" + v == v;
    assert t[1..] == q + ("\"" + s);
    assert t[0] == '"';
  }

  lemma ScansPunct(c: char, s: string)
    requires Punctuation(c).Some?
    ensures ScanToken([c] + s) == Found(Lexeme(Punctuation(c).value, [c]), 1)
  {
    assert ([c] + s)[0] == c;
  }

  /** A token in one of its spellings scans to that token. */
  lemma ScansSpelled(t: string, l: Lexeme, s: string)
    requires Spells(t, l) && Apart(l, s)
    ensures ScanToken(t + s) == Found(l, |t|)
  {
    hide ScanToken, ByteLen, Quoted, IsNumberText;
    match l.kind
    case Ident => ScansWord(t, s);
    case True => WordBytes("true"); ScansWord("true", s);
    case False => WordBytes("false"); ScansWord("false", s);
    case Num => NumberToken(t, s);
    case Str =>
      var q := t[1..|t| - 1];
      assert t == "\"" + q + "\"";
      ScansString(q, l.text, s);
    case AtVersion => ScansDirective(s);
    case LParen | RParen | LBrace | RBrace | Comma | Semicolon | Colon => ScansPunct(t[0], s);
    case EOF =>
  }

  lemma NumberToken(t: string, s: string)
    requires IsNumberText(t) && Apart(Lexeme(Num, t), s)
    ensures ScanToken(t + s) == Found(Lexeme(Num, t), |t|)
  {
    hide ScanNumber, IsNumberText;
    ScansNumber(t, s);
    assert (t + s)[0] == t[0];
  }

  // ---- Gaps are skipped ----

  lemma {:induction false} LineRestIs(s: string, k: nat)
    requires k <= |s| && (forall i :: 0 <= i < k ==> s[i] != '\n') && (k < |s| ==> s[k] == '\n')
    ensures LineRest(s) == k
  {
    if k > 0 {
      LineRestIs(s[1..], k - 1);
    }
  }

  lemma SpaceSkips(s: string)
    requires s != "" && IsSpace(s[0])
    ensures SkipLen(s) == 1 + SkipLen(s[1..])
  {
  }

  lemma NothingSkips(s: string)
    requires s == "" || (!IsSpace(s[0]) && !Comments(s))
    ensures SkipLen(s) == 0
  {
  }

  lemma MarkFacts(s: string)
    requires Comments(s)
    ensures CommentMark(s) >= 1 && s != "" && !IsSpace(s[0])
    ensures forall i :: 0 <= i < CommentMark(s) ==> s[i] != '\n'
  {
  }

  lemma CommentSkips(s: string, k: nat)
    requires Comments(s) && k == CommentMark(s) + LineRest(s[CommentMark(s)..])
    ensures SkipLen(s) == k + SkipLen(s[k..])
  {
    hide LineRest, CommentMark, Comments;
    MarkFacts(s);
  }

  /** A comment up to offset `k`, the end of its line or of the text. */
  lemma SkipComment(s: string, k: nat)
    requires Comments(s) && k <= |s| && (forall i :: 0 <= i < k ==> s[i] != '\n') && (k < |s| ==> s[k] == '\n')
    ensures SkipLen(s) == if k == |s| then k else k + 1 + SkipLen(s[k + 1..])
  {
    hide SkipLen, LineRest;
    var m := CommentMark(s);
    MarkFacts(s);
    assert k >= m;
    forall i | 0 <= i < k - m
      ensures s[m..][i] != '\n'
    {
      assert s[m..][i] == s[m + i];
    }
    LineRestIs(s[m..], k - m);
    CommentSkips(s, k);
    if k < |s| {
      SpaceSkips(s[k..]);
      assert s[k..][1..] == s[k + 1..];
    } else {
      NothingSkips(s[k..]);
    }
  }

  lemma PrefixSlices(s: string, g: nat, k: nat)
    requires k <= g <= |s|
    ensures s[k..][..g - k] == s[..g][k..] && s[k..][g - k..] == s[g..]
    ensures g < |s| ==> s[k..][g - k] == s[g]
  {
  }

  lemma {:induction false} GapSkips(s: string, g: nat, last: bool)
    requires g <= |s| && Gap(s[..g], last) && (last ==> g == |s|)
    requires g < |s| ==> !IsSpace(s[g]) && !Comments(s[g..])
    ensures SkipLen(s) == g
    decreases g
  {
    hide LineRest, SkipLen;
    var t := s[..g];
    if g == 0 {
      assert s[0..] == s;
      NothingSkips(s);
    } else if IsSpace(t[0]) {
      PrefixSlices(s, g, 1);
      GapSkips(s[1..], g - 1, last);
      SpaceSkips(s);
    } else if k: nat :| Comments(t) && LineEnd(t, k) && Gap(t[k + 1..], last) {
      PrefixSlices(s, g, k + 1);
      GapSkips(s[k + 1..], g - k - 1, last);
      SkipComment(s, k);
    } else {
      assert t == s;
      SkipComment(s, g);
    }
  }

  lemma {:induction false} SkipsGap(s: string)
    ensures Gap(s[..SkipLen(s)], SkipLen(s) == |s|)
    decreases |s|
  {
    var n := SkipLen(s);
    var t, last := s[..n], n == |s|;
    if n > 0 {
      if IsSpace(s[0]) {
        SkipsGap(s[1..]);
        assert t[1..] == s[1..][..n - 1];
      } else {
        SkipsComment(s);
      }
    }
  }

  /** Where a comment starts that is skipped, it runs to the end of its line or of the text. */
  lemma CommentRuns(s: string) returns (k: nat)
    requires s != "" && !IsSpace(s[0]) && SkipLen(s) > 0
    ensures Comments(s) && k <= |s| && (forall i :: 0 <= i < k ==> s[i] != '\n') && (k < |s| ==> s[k] == '\n')
  {
    hide LineRest;
    var m := CommentMark(s);
    var n := LineRest(s[m..]);
    k := m + n;
    assert forall i :: 0 <= i < n ==> s[m + i] == s[m..][i];
    assert k < |s| ==> s[k] == s[m..][n];
  }

  lemma {:induction false} SkipsComment(s: string)
    requires s != "" && !IsSpace(s[0]) && SkipLen(s) > 0
    ensures Gap(s[..SkipLen(s)], SkipLen(s) == |s|)
    decreases |s|, 0
  {
    hide SkipLen, CommentMark, LineRest;
    var k := CommentRuns(s);
    SkipComment(s, k);
    var n := SkipLen(s);
    var t := s[..n];
    if k < |s| {
      SkipsGap(s[k + 1..]);
      assert t[k + 1..] == s[k + 1..][..n - k - 1];
      assert LineEnd(t, k);
    }
  }

  // ---- Scanned tokens are spelled ----

  lemma {:induction false} QuotedFrom(s: string, text: string, off: nat) returns (q: string, v: string)
    requires ByteLen(text) <= MaxStringBytes && ScanStringRest(s, text, off).Found?
    ensures var r := ScanStringRest(s, text, off);
            && Quoted(q, v) && q + "\"" <= s
            && r == Found(Lexeme(Str, text + v), off + |q| + 1) && ByteLen(text + v) <= MaxStringBytes
    decreases |s|
  {
    hide ByteLen;
    if s[0] == '"' {
      q, v := "", "";
      assert text + v == text;
    } else {
      var k, c := if s[0] == '\\' then 2 else 1, if s[0] == '\\' then Unescape(s[1]).value else s[0];
      CharBytes(text, [c]);
      var q1, v1 := QuotedFrom(s[k..], text + [c], off + k);
      q, v := s[..k] + q1, [c] + v1;
      assert text + v == text + [c] + v1;
      assert q[k..] == q1 && v[1..] == v1;
      assert q + "\"" == s[..k] + (q1 + "\"");
      assert s == s[..k] + s[k..];
    }
  }

  lemma ScannedWhole(s: string, sign: nat)
    requires sign <= |s| && (s[..sign] == "" || s[..sign] == "-") && ScanUnsigned(s, sign).Found?
    requires var w := sign + DigitLen(s[sign..]); w == |s| || s[w] != '.'
    ensures var r := ScanUnsigned(s, sign);
            && r.lexeme == Lexeme(Num, s[..r.len])
            && IsNumberText(s[..r.len]) && Apart(r.lexeme, s[r.len..])
  {
    hide DigitLen, IsNumberText;
    var w := DigitLen(s[sign..]);
    var whole := s[sign..][..w];
    assert s[..sign + w] == s[..sign] + whole;
    assert s[..sign] + whole + "" == s[..sign] + whole;
    JoinNumber(s[..sign], whole, "");
    NoPoint(s[..sign], whole);
    assert sign + w < |s| ==> s[sign + w..][0] == s[sign..][w];
  }

  lemma ScannedFraction(s: string, sign: nat)
    requires sign <= |s| && (s[..sign] == "" || s[..sign] == "-") && ScanUnsigned(s, sign).Found?
    requires var w := sign + DigitLen(s[sign..]); w < |s| && s[w] == '.'
    ensures var r := ScanUnsigned(s, sign);
            && r.lexeme == Lexeme(Num, s[..r.len])
            && IsNumberText(s[..r.len]) && Apart(r.lexeme, s[r.len..])
  {
    hide DigitLen, IsNumberText, Apart;
    var w := sign + DigitLen(s[sign..]);
    var f := DigitLen(s[w + 1..]);
    var whole, frac := s[sign..w], s[w..w + 1 + f];
    FractionParts(s, sign, w, f);
    JoinNumber(s[..sign], whole, frac);
    FractionApart(s, w, w + 1 + f);
  }

  lemma FractionParts(s: string, sign: nat, w: nat, f: nat)
    requires sign <= w < |s| && w - sign == DigitLen(s[sign..]) && f == DigitLen(s[w + 1..]) && s[w] == '.'
    ensures w + 1 + f <= |s| && AllDigits(s[sign..w]) && AllDigits(s[w..w + 1 + f][1..])
    ensures s[..sign] + s[sign..w] + s[w..w + 1 + f] == s[..w + 1 + f]
  {
    hide DigitLen;
    assert s[sign..w] == s[sign..][..w - sign];
    assert s[w..w + 1 + f][1..] == s[w + 1..][..f];
  }

  lemma FractionApart(s: string, w: nat, n: nat)
    requires w < n <= |s| && s[w] == '.' && n - w - 1 == DigitLen(s[w + 1..])
    ensures Apart(Lexeme(Num, s[..n]), s[n..])
  {
    hide DigitLen;
    assert s[..n][w] == '.';
    assert n < |s| ==> s[n..][0] == s[w + 1..][n - w - 1];
  }

  lemma ScannedNumber(s: string, sign: nat)
    requires sign <= |s| && (s[..sign] == "" || s[..sign] == "-") && ScanUnsigned(s, sign).Found?
    ensures var r := ScanUnsigned(s, sign);
            && r.lexeme == Lexeme(Num, s[..r.len])
            && IsNumberText(s[..r.len]) && Apart(r.lexeme, s[r.len..])
  {
    hide DigitLen, IsNumberText, ScanUnsigned, Apart;
    var w := sign + DigitLen(s[sign..]);
    if w < |s| && s[w] == '.' {
      ScannedFraction(s, sign);
    } else {
      ScannedWhole(s, sign);
    }
  }

  lemma ScannedWord(s: string)
    requires s != "" && IsIdentStart(s[0]) && ScanIdent(s).Found?
    ensures var r := ScanIdent(s); Spells(s[..r.len], r.lexeme) && Apart(r.lexeme, s[r.len..])
  {
    hide ByteLen;
    assert IdentLen(s) >= 1;
  }

  lemma ScannedDirective(s: string)
    requires s != "" && s[0] == '@' && ScanAt(s).Found?
    ensures var r := ScanAt(s); Spells(s[..r.len], r.lexeme) && Apart(r.lexeme, s[r.len..])
  {
    hide ByteLen, IdentLen;
    var n := IdentLen(s[1..]);
    assert s[..1 + n] == ['@'] + s[1..][..n];
    assert s[1 + n..] == s[1..][n..];
  }

  lemma ScannedString(s: string)
    requires s != "" && s[0] == '"' && ScanStringRest(s[1..], "", 1).Found?
    ensures var r := ScanStringRest(s[1..], "", 1); Spells(s[..r.len], r.lexeme) && Apart(r.lexeme, s[r.len..])
  {
    hide ScanStringRest, Quoted;
    EmptyBytes();
    hide ByteLen;
    var q, v := QuotedFrom(s[1..], "", 1);
    assert "" + v == v;
    var t := s[..|q| + 2];
    assert s[1..][..|q| + 1] == q + "\"";
    assert t == "\"" + (q + "\"");
    assert t[1..|t| - 1] == q;
  }

  /** Whatever scans as a token is a spelling of it, and what follows is apart from it. */
  lemma ScannedIsSpelled(s: string)
    requires s != "" && ScanToken(s).Found?
    ensures var r := ScanToken(s); Spells(s[..r.len], r.lexeme) && Apart(r.lexeme, s[r.len..])
  {
    hide ScanAt, ScanIdent, ScanUnsigned, ScanStringRest, IsNumberText, ByteLen, Quoted, IsIdent;
    var c := s[0];
    if Punctuation(c).Some? {
      assert s[..1] == [c];
    } else if c == '@' {
      ScannedDirective(s);
    } else if c == '"' {
      ScannedString(s);
    } else if c == '-' || IsDigit(c) {
      assert s[..1] == [c] && s[..0] == "";
      ScannedNumber(s, if c == '-' then 1 else 0);
    } else {
      ScannedWord(s);
    }
  }

  // ---- Texts ----

  lemma ReadsSpelled(t: string, l: Lexeme, s: string, toks: seq<Lexeme>)
    requires Spells(t, l) && Apart(l, s) && Reads(s, toks)
    ensures Reads(t + s, [l] + toks)
  {
    hide ScanToken, Spells, Apart;
    var u := t + s;
    SpelledStart(t, l);
    ScansSpelled(t, l, s);
    assert u[0] == t[0];
    assert SkipLen(u) == 0;
    assert u[0..] == u;
    assert u[|t|..] == s;
    assert ([l] + toks)[1..] == toks;
  }

  lemma {:induction false} WrittenReads(s: string, toks: seq<Lexeme>)
    requires Written(s, toks)
    ensures Reads(s, toks)
    decreases |toks|
  {
    hide ScanToken, Spells, Apart, SkipLen;
    if toks == [] {
      assert s[..|s|] == s;
      GapSkips(s, |s|, true);
    } else {
      var g: nat, n: nat :| WrittenFrom(s, toks, g, n);
      var t, rest := s[g..g + n], s[g + n..];
      WrittenReads(rest, toks[1..]);
      SpelledStart(t, toks[0]);
      assert s[g..] == t + rest;
      ScansSpelled(t, toks[0], rest);
      GapSkips(s, g, false);
    }
  }

  lemma {:induction false} ReadsWritten(s: string, toks: seq<Lexeme>)
    requires Reads(s, toks)
    ensures Written(s, toks)
    decreases |toks|
  {
    hide ScanToken, Spells, Apart, SkipLen;
    var g := SkipLen(s);
    SkipsGap(s);
    if toks == [] {
      assert s[..g] == s;
    } else {
      var n := ScanToken(s[g..]).len;
      ReadsWritten(s[g + n..], toks[1..]);
      ScannedIsSpelled(s[g..]);
      assert s[g..][..n] == s[g..g + n] && s[g..][n..] == s[g + n..];
      assert WrittenFrom(s, toks, g, n);
    }
  }

  /** The scanner reads a text as some tokens exactly when the text is a way of writing them. */
  lemma ScansExactly(s: string, toks: seq<Lexeme>)
    ensures Reads(s, toks) <==> Written(s, toks)
  {
    hide Reads, Written;
    if Reads(s, toks) {
      ReadsWritten(s, toks);
    }
    if Written(s, toks) {
      WrittenReads(s, toks);
    }
  }
}
