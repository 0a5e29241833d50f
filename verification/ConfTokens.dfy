/** The source language as sequences of tokens: trees with their optional semicolons, and what the parser makes of
    them (conf/parser.go). */
module ConfTokens {
  import opened Prelude
  import opened ConfText
  import opened ConfNumber
  import opened ConfAst
  import opened ConfLexer
  import opened ConfParser

  // ---- Source trees ----

  /** A statement as written: a semicolon may follow the closing brace or parenthesis. */
  datatype SourceStmt =
    | SourceBlock(name: string, id: string, body: seq<SourceStmt>, semicolon: bool)
    | SourceCall(call: Call, semicolon: bool)

  /** `version` is the number of the directive as written, which a semicolon may follow too. */
  datatype SourceFile = SourceFile(version: Option<string>, semicolon: bool, stmts: seq<SourceStmt>)

  /** The tree it stands for; only calls remember their semicolon. */
  function Meaning(x: SourceStmt): Stmt {
    match x
    case SourceBlock(name, id, body, _) => Block(name, id, Meanings(body), NoPos)
    case SourceCall(c, semicolon) => CallStmt(c.(trailingSem := semicolon))
  }

  function Meanings(xs: seq<SourceStmt>): (r: seq<Stmt>)
    ensures |r| == |xs|
  {
    if xs == [] then [] else [Meaning(xs[0])] + Meanings(xs[1..])
  }

  function VersionOf(x: SourceFile): int {
    if x.version.None? then 0
    else match ParseInt(x.version.value) case Some(n) => n case None => 0
  }

  function FileMeaning(x: SourceFile): File {
    File(VersionOf(x), Meanings(x.stmts))
  }

  /** Within the hard limits, and the version a number of at least one. */
  ghost predicate SourceOk(x: SourceFile) {
    && (x.version.Some? ==> IsNumberText(x.version.value) && VersionOf(x) >= 1)
    && (x.version.None? ==> !x.semicolon)
    && FileOk(FileMeaning(x))
  }

  /** A tree without its positions. */
  function Unplaced(s: Stmt): Stmt {
    match s
    case Block(name, id, body, _) => Block(name, id, UnplacedAll(body), NoPos)
    case CallStmt(c) => CallStmt(EraseCall(c).(trailingSem := c.trailingSem))
  }

  function UnplacedAll(ss: seq<Stmt>): (r: seq<Stmt>)
    ensures |r| == |ss|
  {
    if ss == [] then [] else [Unplaced(ss[0])] + UnplacedAll(ss[1..])
  }

  function UnplacedFile(f: File): File {
    File(f.version, UnplacedAll(f.stmts))
  }

  // ---- Their tokens ----

  function Punct(kind: TokenKind, c: char): Lexeme {
    Lexeme(kind, [c])
  }

  predicate OpensValue(kind: TokenKind) {
    kind == Str || kind == Num || kind == True || kind == False || kind == Ident
  }

  function ValueToks(v: Value): (r: seq<Lexeme>)
    ensures r != [] && OpensValue(r[0].kind)
  {
    match v
    case StringLit(s, _) => [Lexeme(Str, s)]
    case NumberLit(t, _, _) => [Lexeme(Num, t)]
    case BoolLit(b, _) => [if b then Lexeme(True, "true") else Lexeme(False, "false")]
    case IdentLit(n, _) => [Lexeme(Ident, n)]
    case CallValue(c) => CallToks(c)
  }

  function CallToks(c: Call): (r: seq<Lexeme>)
    ensures r != [] && r[0].kind == Ident
  {
    [Lexeme(Ident, c.name), Punct(LParen, '(')] + ArgsToks(c.args) + [Punct(RParen, ')')]
  }

  function ArgsToks(vs: seq<Value>): (r: seq<Lexeme>)
    ensures vs != [] ==> r != [] && OpensValue(r[0].kind)
  {
    if vs == [] then []
    else if |vs| == 1 then ValueToks(vs[0])
    else ValueToks(vs[0]) + [Punct(Comma, ',')] + ArgsToks(vs[1..])
  }

  function HeaderToks(name: string, id: string): seq<Lexeme> {
    [Lexeme(Ident, name)] + (if id == "" then [] else [Lexeme(Ident, id)]) + [Punct(LBrace, '{')]
  }

  function Semi(semicolon: bool): seq<Lexeme> {
    if semicolon then [Punct(Semicolon, ';')] else []
  }

  function SourceToks(x: SourceStmt): (r: seq<Lexeme>)
    ensures r != [] && r[0].kind == Ident
  {
    match x
    case SourceBlock(name, id, body, semicolon) =>
      HeaderToks(name, id) + SourcesToks(body) + [Punct(RBrace, '}')] + Semi(semicolon)
    case SourceCall(c, semicolon) => CallToks(c) + Semi(semicolon)
  }

  function SourcesToks(xs: seq<SourceStmt>): (r: seq<Lexeme>)
    ensures r != [] ==> r[0].kind == Ident
  {
    if xs == [] then [] else SourceToks(xs[0]) + SourcesToks(xs[1..])
  }

  function DirectiveToks(text: string): seq<Lexeme> {
    [Lexeme(AtVersion, "@version"), Punct(Colon, ':'), Lexeme(Num, text)]
  }

  function FileToks(x: SourceFile): seq<Lexeme> {
    (match x.version case Some(text) => DirectiveToks(text) + Semi(x.semicolon) case None => [])
    + SourcesToks(x.stmts)
  }

  // ---- Text and tokens ----

  /** The text scans to exactly these lexemes and then ends. */
  ghost predicate Reads(s: string, toks: seq<Lexeme>)
    decreases |toks|
  {
    var k := SkipLen(s);
    if toks == [] then k == |s|
    else
      && k < |s|
      && var scan := ScanToken(s[k..]);
      && scan.Found?
      && scan.lexeme == toks[0]
      && Reads(s[k + scan.len..], toks[1..])
  }

  // ---- Parsing the tokens of a tree ----

  /** From this state on, the parser sees exactly these lexemes and then the end. */
  ghost predicate Upcoming(src: string, p: State, toks: seq<Lexeme>)
    requires p.i <= |src|
  {
    match |toks|
    case 0 => p.cur.kind == EOF && p.peek.kind == EOF && Reads(src[p.i..], [])
    case 1 => Bare(p.cur) == toks[0] && p.cur.kind != EOF && p.peek.kind == EOF && Reads(src[p.i..], [])
    case _ =>
      && Bare(p.cur) == toks[0] && Bare(p.peek) == toks[1] && p.cur.kind != EOF && p.peek.kind != EOF
      && Reads(src[p.i..], toks[2..])
  }

  lemma NextReads(src: string, i: nat, toks: seq<Lexeme>)
    requires i <= |src| && Reads(src[i..], toks)
    ensures var r := Next(src, i);
            && r.Ok?
            && (toks == [] ==> r.value.token.kind == EOF && Reads(src[r.value.i..], []))
            && (toks != [] ==>
                  && Bare(r.value.token) == toks[0] && r.value.token.kind != EOF
                  && Reads(src[r.value.i..], toks[1..]))
  {
    hide ScanToken, SkipLen, PosAt;
    var s := src[i..];
    var k := SkipLen(s);
    assert src[i + k..] == s[k..];
    if toks == [] {
      assert src[i + k..] == "";
      SkipNothing();
    } else {
      var n := ScanToken(s[k..]).len;
      assert src[i + k + n..] == s[k + n..];
      ScansNoEnd(s[k..]);
    }
  }

  lemma ScansNoEnd(s: string)
    requires s != "" && ScanToken(s).Found?
    ensures ScanToken(s).lexeme.kind != EOF
  {
    hide ByteLen, DigitLen, IdentLen;
    if ScanStringRest(s[1..], "", 1).Found? {
      ScansString(s[1..], "", 1);
    }
  }

  lemma {:induction false} ScansString(s: string, text: string, off: nat)
    requires ScanStringRest(s, text, off).Found?
    ensures ScanStringRest(s, text, off).lexeme.kind == Str
    decreases |s|
  {
    hide ByteLen;
    if s[0] == '\\' {
      ScansString(s[2..], text + [Unescape(s[1]).value], off + 2);
    } else if s[0] != '"' {
      ScansString(s[1..], text + [s[0]], off + 1);
    }
  }

  lemma SkipNothing()
    ensures SkipLen("") == 0
  {
  }

  lemma AdvanceSees(src: string, p: State, toks: seq<Lexeme>)
    requires p.i <= |src| && toks != [] && Upcoming(src, p, toks)
    ensures Advance(src, p).Ok?
    ensures Upcoming(src, Advance(src, p).value, toks[1..])
  {
    hide Reads, Next;
    NextReads(src, p.i, if |toks| <= 2 then [] else toks[2..]);
    assert |toks| > 2 ==> toks[2..][1..] == toks[1..][2..];
  }

  /** Stepping over a known first token. */
  lemma AdvanceOver(src: string, p: State, l: Lexeme, toks: seq<Lexeme>)
    requires p.i <= |src| && Upcoming(src, p, [l] + toks)
    ensures p.cur.kind == l.kind && p.cur.text == l.text
    ensures Advance(src, p).Ok?
    ensures Upcoming(src, Advance(src, p).value, toks)
  {
    hide Reads;
    assert ([l] + toks)[0] == l;
    assert ([l] + toks)[1..] == toks;
    AdvanceSees(src, p, [l] + toks);
  }

  lemma UpcomingKind(src: string, p: State, toks: seq<Lexeme>)
    requires p.i <= |src| && Upcoming(src, p, toks)
    ensures p.cur.kind == if toks == [] then EOF else toks[0].kind
  {
  }

  lemma ParsesLiteral(src: string, p: State, v: Value, depth: int, tail: seq<Lexeme>)
    requires p.i <= |src| && ValueOk(v, depth) && (v.StringLit? || v.NumberLit? || v.BoolLit?)
    requires Upcoming(src, p, ValueToks(v) + tail)
    ensures var r := ParseValue(src, p, depth);
            && r.Ok?
            && EraseValue(r.value.node) == EraseValue(v)
            && r.value.state.stmts == p.stmts
            && Upcoming(src, r.value.state, tail)
  {
    hide Upcoming, Advance, ParseCallTail, NoNul, ByteLen, IsNumberText, ParseNumberLit;
    AdvanceOver(src, p, ValueToks(v)[0], tail);
  }

  lemma ParsesIdent(src: string, p: State, n: string, at: Pos, depth: int, tail: seq<Lexeme>)
    requires p.i <= |src| && Upcoming(src, p, [Lexeme(Ident, n)] + tail)
    requires tail != [] ==> tail[0].kind != LParen
    ensures var r := ParseValue(src, p, depth);
            && r.Ok?
            && EraseValue(r.value.node) == IdentLit(n, NoPos)
            && r.value.state.stmts == p.stmts
            && Upcoming(src, r.value.state, tail)
  {
    hide Upcoming, Advance, ParseCallTail;
    AdvanceOver(src, p, Lexeme(Ident, n), tail);
    UpcomingKind(src, Advance(src, p).value, tail);
  }

  lemma {:induction false} ParsesValue(src: string, p: State, v: Value, depth: int, tail: seq<Lexeme>)
    requires p.i <= |src| && ValueOk(v, depth)
    requires Upcoming(src, p, ValueToks(v) + tail)
    requires tail != [] ==> tail[0].kind != LParen
    ensures var r := ParseValue(src, p, depth);
            && r.Ok?
            && EraseValue(r.value.node) == EraseValue(v)
            && r.value.state.stmts == p.stmts
            && Upcoming(src, r.value.state, tail)
    decreases v, 1
  {
    hide Upcoming, Advance, ParseCallTail, CallOk, IsIdent, NoNul, ByteLen, IsNumberText, ParseNumberLit, EraseCall;
    match v
    case IdentLit(n, at) => ParsesIdent(src, p, n, at, depth, tail);
    case CallValue(c) =>
      var rest := [Punct(LParen, '(')] + (ArgsToks(c.args) + ([Punct(RParen, ')')] + tail));
      assert ValueToks(v) + tail == [Lexeme(Ident, c.name)] + rest;
      AdvanceOver(src, p, Lexeme(Ident, c.name), rest);
      UpcomingKind(src, Advance(src, p).value, rest);
      assert Semi(false) + tail == tail;
      ParsesCall(src, Advance(src, p).value, c, depth, p.cur.pos, false, false, tail);
    case _ => ParsesLiteral(src, p, v, depth, tail);
  }

  lemma EraseOne(vs: seq<Value>)
    requires |vs| == 1
    ensures EraseValues(vs) == [EraseValue(vs[0])]
  {
    hide EraseValue;
    assert EraseValues(vs[1..]) == [];
  }

  lemma EraseCons(v: Value, vs: seq<Value>)
    ensures EraseValues([v] + vs) == [EraseValue(v)] + EraseValues(vs)
  {
    hide EraseValue;
    assert ([v] + vs)[1..] == vs;
  }

  lemma ArgsCommaToks(vs: seq<Value>, close: seq<Lexeme>)
    requires |vs| > 1
    ensures ArgsToks(vs) + close == ValueToks(vs[0]) + ([Punct(Comma, ',')] + (ArgsToks(vs[1..]) + close))
  {
    hide ValueToks;
    CommaToks(ValueToks(vs[0]), ArgsToks(vs[1..]), close);
  }

  lemma OneArgToks(vs: seq<Value>)
    requires |vs| == 1
    ensures ArgsToks(vs) == ValueToks(vs[0])
  {
  }

  lemma EraseParsed(v: Value, more: seq<Value>, vs: seq<Value>)
    requires vs != [] && EraseValue(v) == EraseValue(vs[0]) && EraseValues(more) == EraseValues(vs[1..])
    ensures EraseValues([v] + more) == EraseValues(vs)
  {
    hide EraseValue, EraseValues;
    EraseCons(v, more);
    EraseCons(vs[0], vs[1..]);
    assert vs == [vs[0]] + vs[1..];
  }

  lemma {:induction false} ParsesArgs(src: string, p: State, vs: seq<Value>, depth: int, count: nat,
                                      tail: seq<Lexeme>)
    requires p.i <= |src| && vs != [] && ValuesOk(vs, depth) && count + |vs| <= MaxArgs
    requires Upcoming(src, p, ArgsToks(vs) + ([Punct(RParen, ')')] + tail))
    ensures var r := ParseArgs(src, p, depth, count);
            && r.Ok?
            && EraseValues(r.value.node) == EraseValues(vs)
            && r.value.state.stmts == p.stmts
            && Upcoming(src, r.value.state, [Punct(RParen, ')')] + tail)
    decreases vs, 2
  {
    hide Upcoming, Advance, ParseValue, ValueToks, ArgsToks, EraseValue, EraseValues, ValueOk;
    var close := [Punct(RParen, ')')] + tail;
    if |vs| == 1 {
      OneArgToks(vs);
      ParsesValue(src, p, vs[0], depth, close);
      var v := ParseValue(src, p, depth).value;
      UpcomingKind(src, v.state, close);
      EraseOne([v.node]);
      EraseOne(vs);
    } else {
      var rest := ArgsToks(vs[1..]) + close;
      ArgsCommaToks(vs, close);
      ParsesValue(src, p, vs[0], depth, [Punct(Comma, ',')] + rest);
      var v := ParseValue(src, p, depth).value;
      AdvanceOver(src, v.state, Punct(Comma, ','), rest);
      var p1 := Advance(src, v.state).value;
      UpcomingKind(src, p1, rest);
      ParsesArgs(src, p1, vs[1..], depth, count + 1, tail);
      EraseParsed(v.node, ParseArgs(src, p1, depth, count + 1).value.node, vs);
    }
  }

  // ---- Calls, blocks and files ----

  lemma CommaToks(v: seq<Lexeme>, rest: seq<Lexeme>, toks: seq<Lexeme>)
    ensures v + [Punct(Comma, ',')] + rest + toks == v + ([Punct(Comma, ',')] + (rest + toks))
  {
  }

  lemma NoArgsToks()
    ensures ArgsToks([]) == []
  {
  }

  /** The optional semicolon is taken if it is there. */
  lemma TakesSemicolon(src: string, p: State, semicolon: bool, tail: seq<Lexeme>)
    requires p.i <= |src| && Upcoming(src, p, Semi(semicolon) + tail)
    requires !semicolon && tail != [] ==> tail[0].kind != Semicolon
    ensures p.cur.kind == Semicolon <==> semicolon
    ensures var r := SkipSemicolon(src, p);
            r.Ok? && r.value.stmts == p.stmts && Upcoming(src, r.value, tail)
  {
    hide Upcoming, Advance;
    if semicolon {
      AdvanceOver(src, p, Punct(Semicolon, ';'), tail);
    } else {
      assert Semi(false) + tail == tail;
      UpcomingKind(src, p, tail);
    }
  }

  lemma {:induction false} ParsesCall(src: string, p: State, c: Call, depth: int, namePos: Pos, asStmt: bool,
                                      semicolon: bool, tail: seq<Lexeme>)
    requires p.i <= |src| && CallOk(c, depth) && p.cur.kind == LParen
    requires Upcoming(src, p,
               [Punct(LParen, '(')] + (ArgsToks(c.args) + ([Punct(RParen, ')')] + (Semi(semicolon) + tail))))
    requires semicolon ==> asStmt
    requires asStmt && !semicolon && tail != [] ==> tail[0].kind != Semicolon
    ensures var r := ParseCallTail(src, p, depth, c.name, namePos, asStmt);
            && r.Ok?
            && EraseCall(r.value.node) == EraseCall(c) && r.value.node.trailingSem == semicolon
            && r.value.state.stmts == p.stmts
            && Upcoming(src, r.value.state, tail)
    decreases c, 0
  {
    hide Upcoming, Advance, ParseArgs, ArgsToks, ValuesOk, IsIdent, EraseValues, SkipSemicolon;
    var rest := Semi(semicolon) + tail;
    var close := [Punct(RParen, ')')] + rest;
    AdvanceOver(src, p, Punct(LParen, '('), ArgsToks(c.args) + close);
    var p1 := Advance(src, p).value;
    UpcomingKind(src, p1, ArgsToks(c.args) + close);
    NoArgsToks();
    var p2 := p1;
    if c.args == [] {
      assert ArgsToks(c.args) + close == close;
    } else {
      ParsesArgs(src, p1, c.args, depth + 1, 0, rest);
      p2 := ParseArgs(src, p1, depth + 1, 0).value.state;
    }
    AdvanceOver(src, p2, Punct(RParen, ')'), rest);
    var p3 := Advance(src, p2).value;
    if asStmt {
      TakesSemicolon(src, p3, semicolon, tail);
    } else {
      assert rest == tail;
    }
  }

  lemma {:induction false} ParsesStmt(src: string, p: State, x: SourceStmt, depth: int, tail: seq<Lexeme>)
    requires p.i <= |src| && StmtOk(Meaning(x), depth) && p.stmts + CountStmt(Meaning(x)) <= MaxStatements
    requires Upcoming(src, p, SourceToks(x) + tail)
    requires !x.semicolon && tail != [] ==> tail[0].kind != Semicolon
    ensures var r := ParseStmt(src, p, depth);
            && r.Ok?
            && Unplaced(r.value.node) == Unplaced(Meaning(x))
            && r.value.state.stmts == p.stmts + CountStmt(Meaning(x))
            && Upcoming(src, r.value.state, tail)
    decreases x, 2
  {
    if x.SourceBlock? {
      ParsesBlockStmt(src, p, x, depth, tail);
    } else {
      ParsesCallStmt(src, p, x, depth, tail);
    }
  }

  lemma CallStmtToks(x: SourceStmt, tail: seq<Lexeme>)
    requires x.SourceCall?
    ensures SourceToks(x) + tail ==
            [Lexeme(Ident, x.call.name)]
            + ([Punct(LParen, '(')] + (ArgsToks(x.call.args) + ([Punct(RParen, ')')] + (Semi(x.semicolon) + tail))))
  {
    hide ArgsToks, Semi;
  }

  lemma {:induction false} ParsesCallStmt(src: string, p: State, x: SourceStmt, depth: int, tail: seq<Lexeme>)
    requires p.i <= |src| && x.SourceCall?
    requires StmtOk(Meaning(x), depth) && p.stmts + CountStmt(Meaning(x)) <= MaxStatements
    requires Upcoming(src, p, SourceToks(x) + tail)
    requires !x.semicolon && tail != [] ==> tail[0].kind != Semicolon
    ensures var r := ParseStmt(src, p, depth);
            && r.Ok?
            && Unplaced(r.value.node) == Unplaced(Meaning(x))
            && r.value.state.stmts == p.stmts + CountStmt(Meaning(x))
            && Upcoming(src, r.value.state, tail)
    decreases x, 1
  {
    hide Upcoming, Advance, ParseBlock, ParseCallTail, ArgsToks, EraseValues, ValuesOk, IsIdent, SourceToks;
    var q, c := p.(stmts := p.stmts + 1), x.call;
    var rest := [Punct(LParen, '(')] + (ArgsToks(c.args) + ([Punct(RParen, ')')] + (Semi(x.semicolon) + tail)));
    CallStmtToks(x, tail);
    SameUpcoming(src, p, q, [Lexeme(Ident, c.name)] + rest);
    AdvanceOver(src, q, Lexeme(Ident, c.name), rest);
    var p1 := Advance(src, q).value;
    UpcomingKind(src, p1, rest);
    assert CallOk(c, depth);
    ParsesCall(src, p1, c, depth, p.cur.pos, true, x.semicolon, tail);
  }

  lemma BlockStmtToks(x: SourceStmt, tail: seq<Lexeme>)
    requires x.SourceBlock?
    ensures var close := [Punct(RBrace, '}')] + (Semi(x.semicolon) + tail);
            var rest := [Punct(LBrace, '{')] + (SourcesToks(x.body) + close);
            SourceToks(x) + tail ==
            [Lexeme(Ident, x.name)] + (if x.id == "" then rest else [Lexeme(Ident, x.id)] + rest)
  {
    hide SourcesToks, Semi;
  }

  lemma {:induction false} ParsesBlockStmt(src: string, p: State, x: SourceStmt, depth: int, tail: seq<Lexeme>)
    requires p.i <= |src| && x.SourceBlock?
    requires StmtOk(Meaning(x), depth) && p.stmts + CountStmt(Meaning(x)) <= MaxStatements
    requires Upcoming(src, p, SourceToks(x) + tail)
    requires !x.semicolon && tail != [] ==> tail[0].kind != Semicolon
    ensures var r := ParseStmt(src, p, depth);
            && r.Ok?
            && Unplaced(r.value.node) == Unplaced(Meaning(x))
            && r.value.state.stmts == p.stmts + CountStmt(Meaning(x))
            && Upcoming(src, r.value.state, tail)
    decreases x, 1
  {
    hide Upcoming, Advance, ParseBlock, ParseCallTail, Unplaced, StmtOk, CountStmt, SourceToks, SourcesToks, Meaning;
    var q := p.(stmts := p.stmts + 1);
    var rest := [Punct(LBrace, '{')] + (SourcesToks(x.body) + ([Punct(RBrace, '}')] + (Semi(x.semicolon) + tail)));
    var head := if x.id == "" then rest else [Lexeme(Ident, x.id)] + rest;
    BlockStmtToks(x, tail);
    BlockCounts(x);
    SameUpcoming(src, p, q, [Lexeme(Ident, x.name)] + head);
    AdvanceOver(src, q, Lexeme(Ident, x.name), head);
    var p1 := Advance(src, q).value;
    if x.id == "" {
      UpcomingKind(src, p1, rest);
      ParsesBlock(src, p1, x, depth, p.cur.pos, tail);
    } else {
      AdvanceOver(src, p1, Lexeme(Ident, x.id), rest);
      var p2 := Advance(src, p1).value;
      UpcomingKind(src, p2, rest);
      ParsesBlock(src, p2, x, depth, p.cur.pos, tail);
    }
  }

  lemma BlockCounts(x: SourceStmt)
    requires x.SourceBlock?
    ensures CountStmt(Meaning(x)) == 1 + CountStmts(Meanings(x.body))
  {
  }

  lemma SameUpcoming(src: string, p: State, q: State, toks: seq<Lexeme>)
    requires p.i <= |src| && Upcoming(src, p, toks)
    requires q == p.(stmts := q.stmts)
    ensures Upcoming(src, q, toks)
  {
    hide Reads;
  }

  lemma {:induction false} ParsesBlock(src: string, p: State, x: SourceStmt, depth: int, namePos: Pos,
                                       tail: seq<Lexeme>)
    requires p.i <= |src| && x.SourceBlock? && p.cur.kind == LBrace
    requires StmtOk(Meaning(x), depth) && p.stmts - 1 + CountStmt(Meaning(x)) <= MaxStatements
    requires Upcoming(src, p,
               [Punct(LBrace, '{')] + (SourcesToks(x.body) + ([Punct(RBrace, '}')] + (Semi(x.semicolon) + tail))))
    requires !x.semicolon && tail != [] ==> tail[0].kind != Semicolon
    ensures var r := ParseBlock(src, p, depth, x.name, x.id, namePos);
            && r.Ok?
            && Unplaced(r.value.node) == Unplaced(Meaning(x))
            && r.value.state.stmts == p.stmts - 1 + CountStmt(Meaning(x))
            && Upcoming(src, r.value.state, tail)
    decreases x, 0
  {
    hide Upcoming, Advance, ParseBody, SourcesToks, SkipSemicolon, IsIdent, StmtsOk, CountStmts, UnplacedAll;
    var rest := Semi(x.semicolon) + tail;
    var close := [Punct(RBrace, '}')] + rest;
    AdvanceOver(src, p, Punct(LBrace, '{'), SourcesToks(x.body) + close);
    var p1 := Advance(src, p).value;
    ParsesBody(src, p1, x.body, depth + 1, p.cur.pos, rest);
    var p2 := ParseBody(src, p1, depth + 1, p.cur.pos).value.state;
    AdvanceOver(src, p2, Punct(RBrace, '}'), rest);
    TakesSemicolon(src, Advance(src, p2).value, x.semicolon, tail);
  }

  lemma FirstStmt(xs: seq<SourceStmt>, depth: int)
    requires xs != [] && StmtsOk(Meanings(xs), depth)
    ensures StmtOk(Meaning(xs[0]), depth) && StmtsOk(Meanings(xs[1..]), depth)
    ensures CountStmts(Meanings(xs)) == CountStmt(Meaning(xs[0])) + CountStmts(Meanings(xs[1..]))
    ensures UnplacedAll(Meanings(xs)) == [Unplaced(Meaning(xs[0]))] + UnplacedAll(Meanings(xs[1..]))
  {
    hide Meaning, StmtOk, CountStmt, Unplaced;
    assert Meanings(xs)[1..] == Meanings(xs[1..]);
  }

  lemma UnplacedCons(s: Stmt, ss: seq<Stmt>)
    ensures UnplacedAll([s] + ss) == [Unplaced(s)] + UnplacedAll(ss)
  {
    hide Unplaced;
    assert ([s] + ss)[1..] == ss;
  }

  lemma {:induction false} ParsesBody(src: string, p: State, xs: seq<SourceStmt>, depth: int, openPos: Pos,
                                      tail: seq<Lexeme>)
    requires p.i <= |src| && StmtsOk(Meanings(xs), depth) && p.stmts + CountStmts(Meanings(xs)) <= MaxStatements
    requires Upcoming(src, p, SourcesToks(xs) + ([Punct(RBrace, '}')] + tail))
    ensures var r := ParseBody(src, p, depth, openPos);
            && r.Ok?
            && UnplacedAll(r.value.node) == UnplacedAll(Meanings(xs))
            && r.value.state.stmts == p.stmts + CountStmts(Meanings(xs))
            && Upcoming(src, r.value.state, [Punct(RBrace, '}')] + tail)
    decreases xs, 2
  {
    hide Upcoming, ParseStmt, SourceToks, Unplaced, CountStmt, StmtOk, Meaning;
    var close := [Punct(RBrace, '}')] + tail;
    UpcomingKind(src, p, SourcesToks(xs) + close);
    if xs == [] {
      assert SourcesToks(xs) + close == close;
    } else {
      var rest := SourcesToks(xs[1..]) + close;
      Regroup(SourceToks(xs[0]), SourcesToks(xs[1..]), close);
      FirstStmt(xs, depth);
      ParsesStmt(src, p, xs[0], depth, rest);
      var first := ParseStmt(src, p, depth).value;
      ParsesBody(src, first.state, xs[1..], depth, openPos, tail);
      UnplacedCons(first.node, ParseBody(src, first.state, depth, openPos).value.node);
    }
  }

  lemma {:induction false} ParsesTop(src: string, p: State, xs: seq<SourceStmt>)
    requires p.i <= |src| && StmtsOk(Meanings(xs), 0) && p.stmts + CountStmts(Meanings(xs)) <= MaxStatements
    requires Upcoming(src, p, SourcesToks(xs))
    ensures var r := ParseStmts(src, p);
            && r.Ok?
            && UnplacedAll(r.value.node) == UnplacedAll(Meanings(xs))
    decreases |xs|
  {
    hide Upcoming, ParseStmt, SourceToks, Unplaced, CountStmt, StmtOk, Meaning;
    UpcomingKind(src, p, SourcesToks(xs));
    if xs != [] {
      FirstStmt(xs, 0);
      ParsesStmt(src, p, xs[0], 0, SourcesToks(xs[1..]));
      var first := ParseStmt(src, p, 0).value;
      ParsesTop(src, first.state, xs[1..]);
      UnplacedCons(first.node, ParseStmts(src, first.state).value.node);
    }
  }

  lemma ParsesVersion(src: string, p: State, text: string, semicolon: bool, tail: seq<Lexeme>)
    requires p.i <= |src| && p.cur.kind == AtVersion
    requires ParseInt(text).Some? && ParseInt(text).value >= 1
    requires Upcoming(src, p, DirectiveToks(text) + (Semi(semicolon) + tail))
    requires !semicolon && tail != [] ==> tail[0].kind != Semicolon
    ensures var r := ParseVersion(src, p);
            && r.Ok?
            && Some(r.value.node) == ParseInt(text)
            && r.value.state.stmts == p.stmts
            && Upcoming(src, r.value.state, tail)
  {
    hide Upcoming, Advance, ParseInt, SkipSemicolon;
    var rest := Semi(semicolon) + tail;
    var digits := [Lexeme(Num, text)] + rest;
    var colon := [Punct(Colon, ':')] + digits;
    assert DirectiveToks(text) + rest == [Lexeme(AtVersion, "@version")] + colon;
    AdvanceOver(src, p, Lexeme(AtVersion, "@version"), colon);
    var p1 := Advance(src, p).value;
    AdvanceOver(src, p1, Punct(Colon, ':'), digits);
    var p2 := Advance(src, p1).value;
    AdvanceOver(src, p2, Lexeme(Num, text), rest);
    TakesSemicolon(src, Advance(src, p2).value, semicolon, tail);
  }

  /** The state the parser starts from sees the whole text. */
  lemma StartSees(src: string, toks: seq<Lexeme>)
    requires Reads(src, toks)
    ensures var p1 := Advance(src, State(Blank, Blank, 0, 0));
            && p1.Ok?
            && var p2 := Advance(src, p1.value);
            && p2.Ok? && p2.value.stmts == 0
            && Upcoming(src, p2.value, toks)
  {
    hide Reads, Next;
    assert src[0..] == src;
    NextReads(src, 0, toks);
    var i1 := Next(src, 0).value.i;
    NextReads(src, i1, if toks == [] then [] else toks[1..]);
    assert |toks| >= 2 ==> toks[1..][1..] == toks[2..];
  }

  lemma ParsesFile(src: string, p: State, x: SourceFile)
    requires p.i <= |src| && SourceOk(x) && p.stmts == 0
    requires Upcoming(src, p, FileToks(x))
    ensures var r := ParseFile(src, p); r.Ok? && UnplacedFile(r.value) == UnplacedFile(FileMeaning(x))
  {
    hide Upcoming, SourcesToks, ParseVersion, ParseStmts, UnplacedAll, StmtsOk, CountStmts, ParseInt, IsNumberText,
         Meanings;
    UpcomingKind(src, p, FileToks(x));
    if x.version.Some? {
      var tail := SourcesToks(x.stmts);
      Regroup(DirectiveToks(x.version.value), Semi(x.semicolon), tail);
      ParsesVersion(src, p, x.version.value, x.semicolon, tail);
      ParsesTop(src, ParseVersion(src, p).value.state, x.stmts);
    } else {
      assert FileToks(x) == SourcesToks(x.stmts);
      ParsesTop(src, p, x.stmts);
    }
  }

  lemma {:induction false} NoNulIndex(s: string)
    requires NoNul(s)
    ensures NulIndex(s) == |s|
  {
    if s != "" {
      NoNulIndex(s[1..]);
    }
  }

  /** Every text whose tokens are those of a source file within the limits is accepted, as the tree the file stands
      for. */
  lemma ParsesTokens(src: string, x: SourceFile)
    requires ByteLen(src) <= MaxSourceBytes && NoNul(src) && SourceOk(x) && Reads(src, FileToks(x))
    ensures var r := Parse(src); r.Ok? && UnplacedFile(r.value) == UnplacedFile(FileMeaning(x))
  {
    hide Reads, Upcoming, ParseFile, Advance, NulIndex, ByteLen, FileToks, SourceOk, UnplacedFile;
    NoNulIndex(src);
    StartSees(src, FileToks(x));
    ParsesFile(src, Advance(src, Advance(src, State(Blank, Blank, 0, 0)).value).value, x);
  }
}
