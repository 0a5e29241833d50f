/** Parsing the printed text of a tree gives the tree back. */
module ConfRoundTrip {
  import opened Prelude
  import opened ConfText
  import opened ConfNumber
  import opened ConfAst
  import opened ConfLexer
  import opened ConfParser
  import opened ConfTokens
  import opened ConfSpelling
  import opened ConfEmit

  // ---- The tokens of a tree ----

  function StmtToks(s: Stmt): (r: seq<Lexeme>)
    ensures r != [] && r[0].kind == Ident
  {
    match s
    case Block(name, id, body, _) => HeaderToks(name, id) + StmtsToks(body) + [Punct(RBrace, '}')]
    case CallStmt(c) => CallToks(c)
  }

  function StmtsToks(ss: seq<Stmt>): (r: seq<Lexeme>)
    ensures r != [] ==> r[0].kind == Ident
  {
    if ss == [] then [] else StmtToks(ss[0]) + StmtsToks(ss[1..])
  }

  function VersionToks(version: int): seq<Lexeme> {
    if version > 0 then [Lexeme(AtVersion, "@version"), Punct(Colon, ':'), Lexeme(Num, Itoa(version))] else []
  }

  /** A printed tree as a source tree: no semicolons. */
  function Plain(s: Stmt): SourceStmt {
    match s
    case Block(name, id, body, _) => SourceBlock(name, id, PlainAll(body), false)
    case CallStmt(c) => SourceCall(c, false)
  }

  function PlainAll(ss: seq<Stmt>): seq<SourceStmt> {
    if ss == [] then [] else [Plain(ss[0])] + PlainAll(ss[1..])
  }

  function PlainFile(f: File): SourceFile {
    SourceFile(if f.version > 0 then Some(Itoa(f.version)) else None, false, PlainAll(f.stmts))
  }

  /** It has the same tokens, means the same tree, and is within the same limits. */
  lemma {:induction false} PlainStmt(s: Stmt, depth: int)
    ensures SourceToks(Plain(s)) == StmtToks(s)
    ensures EraseStmt(Meaning(Plain(s))) == EraseStmt(s)
    ensures StmtOk(s, depth) ==> StmtOk(Meaning(Plain(s)), depth)
    ensures CountStmt(Meaning(Plain(s))) == CountStmt(s)
    decreases s, 0
  {
    hide CallToks, HeaderToks, EraseValues, ValuesOk, IsIdent;
    match s
    case Block(name, id, body, _) => PlainStmts(body, depth + 1);
    case CallStmt(c) =>
  }

  lemma {:induction false} PlainStmts(ss: seq<Stmt>, depth: int)
    ensures SourcesToks(PlainAll(ss)) == StmtsToks(ss)
    ensures EraseStmts(Meanings(PlainAll(ss))) == EraseStmts(ss)
    ensures StmtsOk(ss, depth) ==> StmtsOk(Meanings(PlainAll(ss)), depth)
    ensures CountStmts(Meanings(PlainAll(ss))) == CountStmts(ss)
    decreases ss, 0
  {
    hide Plain, Meaning, StmtToks, SourceToks, EraseStmt, StmtOk, CountStmt;
    if ss != [] {
      PlainStmt(ss[0], depth);
      PlainStmts(ss[1..], depth);
      MeaningsCons(Plain(ss[0]), PlainAll(ss[1..]));
      assert ([Plain(ss[0])] + PlainAll(ss[1..]))[1..] == PlainAll(ss[1..]);
    }
  }

  lemma MeaningsCons(x: SourceStmt, xs: seq<SourceStmt>)
    ensures Meanings([x] + xs)[0] == Meaning(x) && Meanings([x] + xs)[1..] == Meanings(xs)
  {
    hide Meaning;
    assert ([x] + xs)[1..] == xs;
  }

  /** Without semicolons too, nothing more is forgotten than positions and semicolons. */
  lemma {:induction false} ErasedValues(vs: seq<Value>)
    ensures EraseValues(EraseValues(vs)) == EraseValues(vs)
    decreases vs, 0
  {
    hide EraseValue;
    if vs != [] {
      ErasedValue(vs[0]);
      ErasedValues(vs[1..]);
      assert EraseValues(vs)[1..] == EraseValues(vs[1..]);
    }
  }

  lemma {:induction false} ErasedValue(v: Value)
    ensures EraseValue(EraseValue(v)) == EraseValue(v)
    decreases v, 0
  {
    hide EraseValues;
    if v.CallValue? {
      ErasedValues(v.call.args);
    }
  }

  lemma {:induction false} ErasedStmt(s: Stmt)
    ensures EraseStmt(Unplaced(s)) == EraseStmt(s)
    decreases s, 0
  {
    hide EraseValues;
    match s
    case Block(_, _, body, _) => ErasedStmts(body);
    case CallStmt(c) => ErasedValues(c.args);
  }

  lemma {:induction false} ErasedStmts(ss: seq<Stmt>)
    ensures EraseStmts(UnplacedAll(ss)) == EraseStmts(ss)
    decreases ss, 0
  {
    hide EraseStmt, Unplaced;
    if ss != [] {
      ErasedStmt(ss[0]);
      ErasedStmts(ss[1..]);
      assert UnplacedAll(ss)[1..] == UnplacedAll(ss[1..]);
    }
  }

  // ---- Lexing printed text ----

  /** A character that ends an identifier or number before it. */
  ghost predicate Ends(s: string) {
    s == "" || (!IsIdentPart(s[0]) && s[0] != '.')
  }

  lemma ReadsEnd()
    ensures Reads("", [])
  {
    assert SkipLen("") == 0;
  }

  lemma SkipSpace(c: char, s: string)
    requires IsSpace(c)
    ensures SkipLen([c] + s) == 1 + SkipLen(s)
  {
    assert ([c] + s)[1..] == s;
  }

  lemma {:induction false} ReadsSpace(c: char, s: string, toks: seq<Lexeme>)
    requires IsSpace(c) && Reads(s, toks)
    ensures Reads([c] + s, toks)
  {
    hide ScanToken, SkipLen;
    SkipSpace(c, s);
    var t, k := [c] + s, SkipLen(s);
    assert t[1 + k..] == s[k..];
    if toks != [] {
      var n := ScanToken(s[k..]).len;
      assert t[1 + k + n..] == s[k + n..];
    }
  }

  lemma {:induction false} ReadsBlank(blank: string, s: string, toks: seq<Lexeme>)
    requires IsBlank(blank) && Reads(s, toks)
    ensures Reads(blank + s, toks)
  {
    hide Reads;
    if blank == "" {
      assert blank + s == s;
    } else {
      ReadsBlank(blank[1..], s, toks);
      ReadsSpace(blank[0], blank[1..] + s, toks);
      assert blank + s == [blank[0]] + (blank[1..] + s);
    }
  }

  lemma ReadsPunct(kind: TokenKind, c: char, s: string, toks: seq<Lexeme>)
    requires Punctuation(c) == Some(kind) && Reads(s, toks)
    ensures Reads([c] + s, [Punct(kind, c)] + toks)
  {
    hide Reads;
    ReadsSpelled([c], Punct(kind, c), s, toks);
  }

  lemma ReadsWord(name: string, s: string, toks: seq<Lexeme>)
    requires IsIdent(name) || name == "true" || name == "false"
    requires Ends(s) && Reads(s, toks)
    ensures Reads(name + s, [Lexeme(IdentKind(name), name)] + toks)
  {
    hide Reads;
    ReadsSpelled(name, Lexeme(IdentKind(name), name), s, toks);
  }

  lemma ReadsNumber(t: string, s: string, toks: seq<Lexeme>)
    requires IsNumberText(t) && Ends(s) && Reads(s, toks)
    ensures Reads(t + s, [Lexeme(Num, t)] + toks)
  {
    hide Reads, IsNumberText;
    ReadsSpelled(t, Lexeme(Num, t), s, toks);
  }

  lemma {:induction false} EscapeQuotes(v: string)
    requires NoNul(v)
    ensures Quoted(Escape(v), v)
  {
    if v != "" {
      EscapeQuotes(v[1..]);
      var e := EscapeChar(v[0]);
      assert Escape(v)[|e|..] == Escape(v[1..]);
    }
  }

  lemma ReadsString(v: string, s: string, toks: seq<Lexeme>)
    requires NoNul(v) && ByteLen(v) <= MaxStringBytes && Reads(s, toks)
    ensures Reads("\"" + Escape(v) + "\"" + s, [Lexeme(Str, v)] + toks)
  {
    hide Reads, Escape, ByteLen, Quoted;
    var t := "\"" + Escape(v) + "\"";
    EscapeQuotes(v);
    assert t[1..|t| - 1] == Escape(v);
    ReadsSpelled(t, Lexeme(Str, v), s, toks);
  }

  lemma {:induction false} ReadsValue(v: Value, depth: int, s: string, toks: seq<Lexeme>)
    requires ValueOk(v, depth) && Ends(s) && Reads(s, toks)
    ensures Reads(ValueText(v) + s, ValueToks(v) + toks)
    decreases v, 0
  {
    hide Reads;
    match v
    case StringLit(text, _) => ReadsString(text, s, toks);
    case NumberLit(t, _, _) => ReadsNumber(t, s, toks);
    case BoolLit(b, _) =>
      ReadsWord(if b then "true" else "false", s, toks);
    case IdentLit(n, _) => ReadsWord(n, s, toks);
    case CallValue(c) => ReadsCall(c, depth, s, toks);
  }

  lemma CallParts(c: Call, s: string, toks: seq<Lexeme>)
    ensures CallText(c) + s == c.name + ("(" + (ArgsText(c.args) + (")" + s)))
    ensures CallToks(c) + toks ==
            [Lexeme(Ident, c.name)] + ([Punct(LParen, '(')] + (ArgsToks(c.args) + ([Punct(RParen, ')')] + toks)))
  {
    hide ArgsText, ArgsToks;
  }

  lemma {:induction false} ReadsCall(c: Call, depth: int, s: string, toks: seq<Lexeme>)
    requires CallOk(c, depth) && Reads(s, toks)
    ensures Reads(CallText(c) + s, CallToks(c) + toks)
    decreases c, 0
  {
    hide Reads, CallText, CallToks, ArgsText, ArgsToks, ValuesOk;
    var close, closeToks := ")" + s, [Punct(RParen, ')')] + toks;
    ReadsPunct(RParen, ')', s, toks);
    var args, argsToks := ArgsText(c.args) + close, ArgsToks(c.args) + closeToks;
    ReadsArgs(c.args, depth + 1, close, closeToks);
    ReadsPunct(LParen, '(', args, argsToks);
    ReadsWord(c.name, "(" + args, [Punct(LParen, '(')] + argsToks);
    CallParts(c, s, toks);
  }

  lemma ArgsParts(vs: seq<Value>, s: string, toks: seq<Lexeme>)
    requires |vs| > 1
    ensures ArgsText(vs) + s == ValueText(vs[0]) + ("," + (" " + (ArgsText(vs[1..]) + s)))
    ensures ArgsToks(vs) + toks == ValueToks(vs[0]) + ([Punct(Comma, ',')] + (ArgsToks(vs[1..]) + toks))
  {
    hide ValueText, ValueToks;
    CommaText(ValueText(vs[0]), ArgsText(vs[1..]), s);
    CommaToks(ValueToks(vs[0]), ArgsToks(vs[1..]), toks);
  }

  lemma CommaText(v: string, rest: string, s: string)
    ensures v + ", " + rest + s == v + ("," + (" " + (rest + s)))
  {
    assert ", " == "," + " ";
  }

  lemma {:induction false} ReadsArgs(vs: seq<Value>, depth: int, s: string, toks: seq<Lexeme>)
    requires ValuesOk(vs, depth) && Ends(s) && Reads(s, toks)
    ensures Reads(ArgsText(vs) + s, ArgsToks(vs) + toks)
    decreases vs, 0
  {
    hide Reads, ValueText, ValueToks;
    if vs == [] {
      assert ArgsText(vs) + s == s;
      assert ArgsToks(vs) + toks == toks;
    } else if |vs| == 1 {
      ReadsValue(vs[0], depth, s, toks);
    } else {
      var rest, restToks := ArgsText(vs[1..]) + s, ArgsToks(vs[1..]) + toks;
      ReadsArgs(vs[1..], depth, s, toks);
      ReadsSpace(' ', rest, restToks);
      ReadsPunct(Comma, ',', " " + rest, restToks);
      ReadsValue(vs[0], depth, "," + (" " + rest), [Punct(Comma, ',')] + restToks);
      ArgsParts(vs, s, toks);
    }
  }

  lemma {:induction false} RepeatBlank(indent: string, n: nat)
    requires IsBlank(indent)
    ensures IsBlank(Repeat(indent, n))
  {
    if n > 0 {
      RepeatBlank(indent, n - 1);
    }
  }

  lemma ReadsHeader(name: string, id: string, s: string, toks: seq<Lexeme>)
    requires IsIdent(name) && (id == "" || IsIdent(id)) && Reads(s, toks)
    ensures Reads(Header(name, id) + s, HeaderToks(name, id) + toks)
  {
    hide Reads;
    var brace, braceToks := " {\n" + s, [Punct(LBrace, '{')] + toks;
    ReadsSpace('\n', s, toks);
    ReadsPunct(LBrace, '{', "\n" + s, toks);
    ReadsSpace(' ', "{" + ("\n" + s), braceToks);
    assert brace == " " + ("{" + ("\n" + s));
    if id == "" {
      ReadsWord(name, brace, braceToks);
      assert Header(name, id) + s == name + brace;
      assert HeaderToks(name, id) + toks == [Lexeme(Ident, name)] + braceToks;
    } else {
      var idToks := [Lexeme(Ident, id)] + braceToks;
      ReadsWord(id, brace, braceToks);
      ReadsSpace(' ', id + brace, idToks);
      ReadsWord(name, " " + (id + brace), idToks);
      assert Header(name, id) + s == name + (" " + (id + brace));
      assert HeaderToks(name, id) + toks == [Lexeme(Ident, name)] + idToks;
    }
  }

  lemma BlockParts(name: string, id: string, body: seq<Stmt>, at: Pos, level: nat, indent: string, s: string,
                   toks: seq<Lexeme>)
    ensures var ind := Repeat(indent, level);
            StmtText(Block(name, id, body, at), level, indent) + s ==
            ind + (Header(name, id) + (StmtsText(body, level + 1, indent) + (ind + ("}" + ("\n" + s)))))
    ensures StmtToks(Block(name, id, body, at)) + toks ==
            HeaderToks(name, id) + (StmtsToks(body) + ([Punct(RBrace, '}')] + toks))
  {
    hide StmtsText, StmtsToks, Header, HeaderToks;
    assert "}\n" == "}" + "\n";
  }

  lemma {:induction false} ReadsStmt(st: Stmt, depth: int, level: nat, indent: string, s: string, toks: seq<Lexeme>)
    requires StmtOk(st, depth) && IsBlank(indent) && Reads(s, toks)
    ensures Reads(StmtText(st, level, indent) + s, StmtToks(st) + toks)
    decreases st, 0
  {
    hide CallText, CallToks, StmtsText, StmtsToks, Header, HeaderToks, StmtsOk, CallOk;
    hide Reads;
    var ind := Repeat(indent, level);
    RepeatBlank(indent, level);
    match st
    case Block(name, id, body, _) =>
      var close, closeToks := "}" + ("\n" + s), [Punct(RBrace, '}')] + toks;
      ReadsSpace('\n', s, toks);
      ReadsPunct(RBrace, '}', "\n" + s, toks);
      ReadsBlank(ind, close, closeToks);
      var inner, innerToks := StmtsText(body, level + 1, indent) + (ind + close), StmtsToks(body) + closeToks;
      ReadsStmts(body, depth + 1, level + 1, indent, ind + close, closeToks);
      ReadsHeader(name, id, inner, innerToks);
      ReadsBlank(ind, Header(name, id) + inner, HeaderToks(name, id) + innerToks);
      BlockParts(name, id, body, st.namePos, level, indent, s, toks);
    case CallStmt(c) =>
      ReadsSpace('\n', s, toks);
      ReadsCall(c, depth, "\n" + s, toks);
      ReadsBlank(ind, CallText(c) + ("\n" + s), CallToks(c) + toks);
      assert StmtText(st, level, indent) + s == ind + (CallText(c) + ("\n" + s));
  }

  lemma StmtsParts(ss: seq<Stmt>, level: nat, indent: string, s: string, toks: seq<Lexeme>)
    requires ss != []
    ensures StmtsText(ss, level, indent) + s ==
            StmtText(ss[0], level, indent) + (StmtsText(ss[1..], level, indent) + s)
    ensures StmtsToks(ss) + toks == StmtToks(ss[0]) + (StmtsToks(ss[1..]) + toks)
  {
    hide StmtText, StmtToks;
    Regroup(StmtText(ss[0], level, indent), StmtsText(ss[1..], level, indent), s);
    Regroup(StmtToks(ss[0]), StmtsToks(ss[1..]), toks);
  }

  lemma {:induction false} ReadsStmts(ss: seq<Stmt>, depth: int, level: nat, indent: string, s: string,
                                      toks: seq<Lexeme>)
    requires StmtsOk(ss, depth) && IsBlank(indent) && Reads(s, toks)
    ensures Reads(StmtsText(ss, level, indent) + s, StmtsToks(ss) + toks)
    decreases ss, 0
  {
    hide Reads, StmtText, StmtToks, StmtOk;
    if ss == [] {
      assert StmtsText(ss, level, indent) + s == s;
      assert StmtsToks(ss) + toks == toks;
    } else {
      var rest, restToks := StmtsText(ss[1..], level, indent) + s, StmtsToks(ss[1..]) + toks;
      ReadsStmts(ss[1..], depth, level, indent, s, toks);
      ReadsStmt(ss[0], depth, level, indent, rest, restToks);
      StmtsParts(ss, level, indent, s, toks);
    }
  }

  lemma {:induction false} ReadsTop(ss: seq<Stmt>, indent: string)
    requires StmtsOk(ss, 0) && IsBlank(indent)
    ensures Reads(TopText(ss, indent), StmtsToks(ss))
  {
    hide Reads, StmtText, StmtToks, StmtOk;
    if ss == [] {
      ReadsEnd();
    } else {
      ReadsTop(ss[1..], indent);
      var rest, restToks := TopText(ss[1..], indent), StmtsToks(ss[1..]);
      if |ss| > 1 && ss[0].Block? && ss[1].Block? {
        ReadsSpace('\n', rest, restToks);
        ReadsStmt(ss[0], 0, 0, indent, "\n" + rest, restToks);
        assert TopText(ss, indent) == StmtText(ss[0], 0, indent) + ("\n" + rest);
      } else {
        ReadsStmt(ss[0], 0, 0, indent, rest, restToks);
        assert TopText(ss, indent) == StmtText(ss[0], 0, indent) + rest;
      }
    }
  }

  lemma ReadsVersionNumber(digits: string, s: string, toks: seq<Lexeme>)
    requires IsNumberText(digits) && Reads(s, toks)
    ensures Reads(" " + (digits + ("\n" + ("\n" + s))), [Lexeme(Num, digits)] + toks)
  {
    hide Reads, IsNumberText;
    ReadsSpace('\n', s, toks);
    ReadsSpace('\n', "\n" + s, toks);
    ReadsNumber(digits, "\n" + ("\n" + s), toks);
    ReadsSpace(' ', digits + ("\n" + ("\n" + s)), [Lexeme(Num, digits)] + toks);
  }

  lemma ReadsVersion(version: int, s: string, toks: seq<Lexeme>)
    requires version <= MaxInt64 && Reads(s, toks)
    ensures Reads(VersionText(version) + s, VersionToks(version) + toks)
  {
    hide Reads, Itoa, IsNumberText;
    if version <= 0 {
      assert VersionText(version) + s == s;
      assert VersionToks(version) + toks == toks;
    } else {
      var digits := Itoa(version);
      ItoaRoundTrip(version);
      ReadsVersionNumber(digits, s, toks);
      var number, numToks := " " + (digits + ("\n" + ("\n" + s))), [Lexeme(Num, digits)] + toks;
      ReadsPunct(Colon, ':', number, numToks);
      ReadsDirective(":" + number, [Punct(Colon, ':')] + numToks);
      VersionTextParts(version, s);
      assert VersionToks(version) + toks == [Lexeme(AtVersion, "@version")] + ([Punct(Colon, ':')] + numToks);
    }
  }

  lemma VersionTextParts(version: int, s: string)
    requires version > 0
    ensures VersionText(version) + s == "@version" + (":" + (" " + (Itoa(version) + ("\n" + ("\n" + s)))))
  {
    hide Itoa;
    var digits := Itoa(version);
    assert "@version: " == "@version" + (":" + " ");
    assert "\n\n" == "\n" + "\n";
    assert "\n" + "\n" + s == "\n" + ("\n" + s);
    assert VersionText(version) + s == "@version: " + (digits + ("\n\n" + s));
    assert "@version" + (":" + " ") + (digits + ("\n\n" + s)) == "@version" + (":" + (" " + (digits + ("\n\n" + s))));
  }

  lemma ReadsDirective(s: string, toks: seq<Lexeme>)
    requires Ends(s) && Reads(s, toks)
    ensures Reads("@version" + s, [Lexeme(AtVersion, "@version")] + toks)
  {
    hide Reads;
    ReadsSpelled("@version", Lexeme(AtVersion, "@version"), s, toks);
  }

  // ---- Printed text has no NUL ----

  lemma {:induction false} EscapeNoNul(v: string)
    requires NoNul(v)
    ensures NoNul(Escape(v))
  {
    if v != "" {
      EscapeNoNul(v[1..]);
      assert NoNul(EscapeChar(v[0]));
    }
  }

  lemma NumberNoNul(t: string)
    requires IsNumberText(t)
    ensures NoNul(t)
  {
    hide DigitLen;
    var ds := Unsigned(t);
    var n := DigitLen(ds);
    assert NoNul(ds) by {
      assert n < |ds| ==> forall k :: n < k < |ds| ==> ds[k] == ds[n + 1..][k - n - 1];
    }
  }

  lemma {:induction false} ValueNoNul(v: Value, depth: int)
    requires ValueOk(v, depth)
    ensures NoNul(ValueText(v))
    decreases v, 1
  {
    match v
    case StringLit(s, _) => EscapeNoNul(s);
    case NumberLit(t, _, _) => NumberNoNul(t);
    case BoolLit(_, _) =>
    case IdentLit(n, _) =>
    case CallValue(c) => CallNoNul(c, depth);
  }

  lemma {:induction false} CallNoNul(c: Call, depth: int)
    requires CallOk(c, depth)
    ensures NoNul(CallText(c))
    decreases c, 0
  {
    ArgsNoNul(c.args, depth + 1);
  }

  lemma {:induction false} ArgsNoNul(vs: seq<Value>, depth: int)
    requires ValuesOk(vs, depth)
    ensures NoNul(ArgsText(vs))
    decreases vs, 2
  {
    if vs != [] {
      ValueNoNul(vs[0], depth);
      ArgsNoNul(vs[1..], depth);
    }
  }

  lemma NoNulConcat(a: string, b: string)
    requires NoNul(a) && NoNul(b)
    ensures NoNul(a + b)
  {
  }

  lemma HeaderNoNul(name: string, id: string)
    requires IsIdent(name) && (id == "" || IsIdent(id))
    ensures NoNul(Header(name, id))
  {
  }

  lemma {:induction false} StmtNoNul(s: Stmt, depth: int, level: nat, indent: string)
    requires StmtOk(s, depth) && IsBlank(indent)
    ensures NoNul(StmtText(s, level, indent))
    decreases s, 1
  {
    hide NoNul, IsIdent, CallText, StmtsText, Header, CallOk, StmtsOk;
    var ind := Repeat(indent, level);
    RepeatBlank(indent, level);
    BlankNoNul(ind);
    LinesNoNul();
    match s
    case Block(name, id, body, _) =>
      HeaderNoNul(name, id);
      StmtsNoNul(body, depth + 1, level + 1, indent);
      NoNulConcat(ind, Header(name, id));
      NoNulConcat(ind + Header(name, id), StmtsText(body, level + 1, indent));
      NoNulConcat(ind + Header(name, id) + StmtsText(body, level + 1, indent), ind);
      NoNulConcat(ind + Header(name, id) + StmtsText(body, level + 1, indent) + ind, "}\n");
    case CallStmt(c) =>
      CallNoNul(c, depth);
      NoNulConcat(ind, CallText(c));
      NoNulConcat(ind + CallText(c), "\n");
  }

  lemma BlankNoNul(s: string)
    requires IsBlank(s)
    ensures NoNul(s)
  {
  }

  lemma LinesNoNul()
    ensures NoNul("}\n") && NoNul("\n")
  {
  }

  lemma {:induction false} StmtsNoNul(ss: seq<Stmt>, depth: int, level: nat, indent: string)
    requires StmtsOk(ss, depth) && IsBlank(indent)
    ensures NoNul(StmtsText(ss, level, indent))
    decreases ss, 2
  {
    if ss != [] {
      StmtNoNul(ss[0], depth, level, indent);
      StmtsNoNul(ss[1..], depth, level, indent);
    }
  }

  lemma {:induction false} TopNoNul(ss: seq<Stmt>, indent: string)
    requires StmtsOk(ss, 0) && IsBlank(indent)
    ensures NoNul(TopText(ss, indent))
  {
    if ss != [] {
      StmtNoNul(ss[0], 0, 0, indent);
      TopNoNul(ss[1..], indent);
    }
  }

  lemma EmitNoNul(f: File, option: string)
    requires FileOk(f) && IsBlank(option)
    ensures NoNul(EmitText(f, option))
  {
    TopNoNul(f.stmts, Indent(option));
    if f.version > 0 {
      ItoaRoundTrip(f.version);
      NumberNoNul(Itoa(f.version));
    }
  }

  // ---- The round trip ----

  /** Parsing the printed text of any tree within the limits gives the same tree, up to positions
      and optional semicolons. */
  lemma RoundTrip(f: File, option: string)
    requires FileOk(f) && IsBlank(option)
    requires ByteLen(EmitText(f, option)) <= MaxSourceBytes
    ensures var r := Parse(EmitText(f, option)); r.Ok? && EraseFile(r.value) == EraseFile(f)
  {
    hide Reads, Parse, ByteLen, StmtsOk, TopText, StmtsToks, SourcesToks, Itoa, ParseInt, IsNumberText, Meanings,
         PlainAll, EraseStmts, UnplacedAll, CountStmts, NoNul, VersionToks, DirectiveToks;
    var src, indent, x := EmitText(f, option), Indent(option), PlainFile(f);
    EmitNoNul(f, option);
    ReadsTop(f.stmts, indent);
    ReadsVersion(f.version, TopText(f.stmts, indent), StmtsToks(f.stmts));
    PlainStmts(f.stmts, 0);
    PlainVersion(f);
    ParsesTokens(src, x);
    ErasedStmts(Parse(src).value.stmts);
    ErasedStmts(Meanings(x.stmts));
  }

  lemma PlainVersion(f: File)
    requires 0 <= f.version <= MaxInt64
    ensures VersionOf(PlainFile(f)) == f.version
    ensures f.version > 0 ==> IsNumberText(Itoa(f.version))
    ensures FileToks(PlainFile(f)) == VersionToks(f.version) + SourcesToks(PlainAll(f.stmts))
  {
    hide Itoa, ParseInt, IsNumberText, PlainAll, SourcesToks;
    if f.version > 0 {
      ItoaRoundTrip(f.version);
    }
  }
}
