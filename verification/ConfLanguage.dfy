/** Which sources are accepted, exactly, and as which trees (conf/parser.go, conf/lexer.go). */
module ConfLanguage {
  import opened Prelude
  import opened ConfText
  import opened ConfNumber
  import opened ConfAst
  import opened ConfLexer
  import opened ConfParser
  import opened ConfTokens
  import opened ConfSpelling
  import opened ConfCanonical

  // ---- From what was parsed back to the tokens ----

  lemma NextReadsBack(src: string, i: nat, toks: seq<Lexeme>)
    requires i <= |src| && Next(src, i).Ok? && Next(src, i).value.token.kind != EOF
    requires Reads(src[Next(src, i).value.i..], toks)
    ensures Reads(src[i..], [Bare(Next(src, i).value.token)] + toks)
  {
    hide ScanToken, SkipLen, PosAt;
    var s := src[i..];
    var k := SkipLen(s);
    assert src[i + k..] == s[k..];
    var n := ScanToken(s[k..]).len;
    assert src[i + k + n..] == s[k + n..];
    assert ([Bare(Next(src, i).value.token)] + toks)[1..] == toks;
  }

  lemma AdvanceBack(src: string, p: State, tail: seq<Lexeme>)
    requires p.i <= |src| && p.cur.kind != EOF && Advance(src, p).Ok?
    requires Upcoming(src, Advance(src, p).value, tail)
    ensures Upcoming(src, p, [Bare(p.cur)] + tail)
  {
    hide Next, Reads;
    var toks := [Bare(p.cur)] + tail;
    NextEnds(src, p.i);
    if |tail| >= 2 {
      NextReadsBack(src, p.i, tail[2..]);
      assert [tail[1]] + tail[2..] == tail[1..];
      assert toks[2..] == tail[1..];
    } else if |tail| == 1 {
      assert toks[2..] == [];
    }
  }

  /** A token of this kind is this lexeme. */
  lemma PunctText(src: string, p: State, c: char)
    requires p.i <= |src| && Good(src, p) && Punctuation(c) == Some(p.cur.kind)
    ensures Bare(p.cur) == Punct(p.cur.kind, c)
  {
    hide Reads, IsIdent, IsNumberText, ByteLen, NoNul;
  }

  lemma SemicolonFrom(src: string, p: State, tail: seq<Lexeme>)
    requires p.i <= |src| && Good(src, p) && SkipSemicolon(src, p).Ok?
    requires Upcoming(src, SkipSemicolon(src, p).value, tail)
    ensures Upcoming(src, p, Semi(p.cur.kind == Semicolon) + tail)
  {
    hide Upcoming, Good, Advance;
    if p.cur.kind == Semicolon {
      PunctText(src, p, ';');
      AdvanceBack(src, p, tail);
    } else {
      assert Semi(false) + tail == tail;
    }
  }

  lemma LiteralText(src: string, p: State)
    requires p.i <= |src| && Good(src, p)
    ensures p.cur.kind == True ==> p.cur.text == "true"
    ensures p.cur.kind == False ==> p.cur.text == "false"
    ensures p.cur.kind == AtVersion ==> p.cur.text == "@version"
    ensures p.cur.kind == Num ==> IsNumberText(p.cur.text)
  {
    hide Reads, IsIdent, IsNumberText, ByteLen, NoNul;
  }

  lemma {:induction false} ValueFrom(src: string, p: State, depth: int, tail: seq<Lexeme>)
    requires p.i <= |src| && Good(src, p) && ParseValue(src, p, depth).Ok?
    requires Upcoming(src, ParseValue(src, p, depth).value.state, tail)
    ensures Upcoming(src, p, ValueToks(ParseValue(src, p, depth).value.node) + tail)
    decreases Ahead(src, p), 0
  {
    hide Upcoming, Good, Advance, ParseCallTail, ParseNumberLit, ArgsToks;
    LiteralText(src, p);
    AdvanceGood(src, p);
    var p1 := Advance(src, p).value;
    if p.cur.kind == Ident && p1.cur.kind == LParen {
      var c := ParseCallTail(src, p1, depth, p.cur.text, p.cur.pos, false).value.node;
      CallFrom(src, p1, depth, p.cur.text, p.cur.pos, false, tail);
      var rest := [Punct(LParen, '(')] + (ArgsToks(c.args) + ([Punct(RParen, ')')] + (Semi(false) + tail)));
      AdvanceBack(src, p, rest);
      CallStmtToks(SourceCall(c, false), tail);
      assert CallToks(c) + Semi(false) == CallToks(c);
    } else {
      AdvanceBack(src, p, tail);
    }
  }

  lemma {:induction false} CallFrom(src: string, p: State, depth: int, name: string, namePos: Pos, asStmt: bool,
                                    tail: seq<Lexeme>)
    requires p.i <= |src| && Good(src, p) && p.cur.kind == LParen
    requires ParseCallTail(src, p, depth, name, namePos, asStmt).Ok?
    requires Upcoming(src, ParseCallTail(src, p, depth, name, namePos, asStmt).value.state, tail)
    ensures var c := ParseCallTail(src, p, depth, name, namePos, asStmt).value.node;
            && c.name == name && (!asStmt ==> !c.trailingSem)
            && Upcoming(src, p,
                 [Punct(LParen, '(')] + (ArgsToks(c.args) + ([Punct(RParen, ')')] + (Semi(c.trailingSem) + tail))))
    decreases Ahead(src, p), 0
  {
    hide Upcoming, Good, Advance, ParseArgs, ArgsToks, SkipSemicolon;
    var c := ParseCallTail(src, p, depth, name, namePos, asStmt).value.node;
    AdvanceGood(src, p);
    var p1 := Advance(src, p).value;
    var p2 := p1;
    if p1.cur.kind != RParen {
      ArgsGood(src, p1, depth + 1, 0);
      p2 := ParseArgs(src, p1, depth + 1, 0).value.state;
    }
    AdvanceGood(src, p2);
    var p3 := Advance(src, p2).value;
    var rest := Semi(c.trailingSem) + tail;
    if asStmt {
      SemicolonFrom(src, p3, tail);
    } else {
      assert rest == tail;
    }
    PunctText(src, p2, ')');
    AdvanceBack(src, p2, rest);
    var close := [Punct(RParen, ')')] + rest;
    if p1.cur.kind != RParen {
      ArgsFrom(src, p1, depth + 1, 0, close);
    } else {
      NoArgsToks();
      assert ArgsToks([]) + close == close;
    }
    PunctText(src, p, '(');
    AdvanceBack(src, p, ArgsToks(c.args) + close);
  }

  lemma {:induction false} ArgsFrom(src: string, p: State, depth: int, count: nat, tail: seq<Lexeme>)
    requires p.i <= |src| && Good(src, p) && ParseArgs(src, p, depth, count).Ok?
    requires Upcoming(src, ParseArgs(src, p, depth, count).value.state, tail)
    ensures var vs := ParseArgs(src, p, depth, count).value.node;
            vs != [] && Upcoming(src, p, ArgsToks(vs) + tail)
    decreases Ahead(src, p), 1
  {
    hide Upcoming, Good, Advance, ParseValue, ValueToks, ArgsToks;
    var vs := ParseArgs(src, p, depth, count).value.node;
    ValueGood(src, p, depth);
    var v := ParseValue(src, p, depth).value;
    if v.state.cur.kind == Comma {
      AdvanceGood(src, v.state);
      var p1 := Advance(src, v.state).value;
      ArgsFrom(src, p1, depth, count + 1, tail);
      var more := ParseArgs(src, p1, depth, count + 1).value.node;
      assert vs[1..] == more;
      PunctText(src, v.state, ',');
      AdvanceBack(src, v.state, ArgsToks(more) + tail);
      ValueFrom(src, p, depth, [Punct(Comma, ',')] + (ArgsToks(more) + tail));
      ArgsCommaToks(vs, tail);
    } else {
      OneArgToks(vs);
      ValueFrom(src, p, depth, tail);
    }
  }

  // ---- Statements ----

  /** The source statement stands for the parsed one, within the same limits. */
  ghost predicate StandsFor(x: SourceStmt, s: Stmt, depth: int) {
    && Unplaced(Meaning(x)) == Unplaced(s)
    && (StmtOk(s, depth) ==> StmtOk(Meaning(x), depth))
    && CountStmt(Meaning(x)) == CountStmt(s)
  }

  ghost predicate AllStandFor(xs: seq<SourceStmt>, ss: seq<Stmt>, depth: int) {
    && UnplacedAll(Meanings(xs)) == UnplacedAll(ss)
    && (StmtsOk(ss, depth) ==> StmtsOk(Meanings(xs), depth))
    && CountStmts(Meanings(xs)) == CountStmts(ss)
  }

  lemma StandsForCons(x: SourceStmt, s: Stmt, xs: seq<SourceStmt>, ss: seq<Stmt>, depth: int)
    requires StandsFor(x, s, depth) && AllStandFor(xs, ss, depth)
    ensures AllStandFor([x] + xs, [s] + ss, depth)
    ensures SourcesToks([x] + xs) == SourceToks(x) + SourcesToks(xs)
  {
    hide Unplaced, Meaning, StmtOk, CountStmt, SourceToks;
    assert ([x] + xs)[1..] == xs && ([s] + ss)[1..] == ss;
    assert Meanings([x] + xs)[1..] == Meanings(xs);
  }

  lemma NothingStandsFor(depth: int)
    ensures AllStandFor([], [], depth) && SourcesToks([]) == []
  {
  }

  lemma CallStandsFor(c: Call, depth: int)
    ensures StandsFor(SourceCall(c, c.trailingSem), CallStmt(c), depth)
  {
    hide EraseValues, ValuesOk, IsIdent;
  }

  lemma BlockStandsFor(name: string, id: string, xs: seq<SourceStmt>, ss: seq<Stmt>, semicolon: bool, pos: Pos,
                       depth: int)
    requires AllStandFor(xs, ss, depth + 1)
    ensures StandsFor(SourceBlock(name, id, xs, semicolon), Block(name, id, ss, pos), depth)
  {
    hide UnplacedAll, Meanings, StmtsOk, CountStmts, IsIdent;
  }

  lemma {:induction false} StmtFrom(src: string, p: State, depth: int, tail: seq<Lexeme>) returns (x: SourceStmt)
    requires p.i <= |src| && Good(src, p) && ParseStmt(src, p, depth).Ok?
    requires Upcoming(src, ParseStmt(src, p, depth).value.state, tail)
    ensures StandsFor(x, ParseStmt(src, p, depth).value.node, depth)
    ensures Upcoming(src, p, SourceToks(x) + tail)
    decreases Ahead(src, p), 2
  {
    hide Upcoming, Good, Advance, ParseBlock, ParseCallTail, StandsFor, SourceToks, SourcesToks, ArgsToks, IsIdent;
    var q := p.(stmts := p.stmts + 1);
    IdentToken(src, p, q);
    AdvanceGood(src, q);
    var p1 := Advance(src, q).value;
    var rest;
    if p1.cur.kind == LParen {
      var c := ParseCallTail(src, p1, depth, p.cur.text, p.cur.pos, true).value.node;
      CallFrom(src, p1, depth, p.cur.text, p.cur.pos, true, tail);
      x := SourceCall(c, c.trailingSem);
      CallStandsFor(c, depth);
      CallStmtToks(x, tail);
      rest := [Punct(LParen, '(')] + (ArgsToks(c.args) + ([Punct(RParen, ')')] + (Semi(x.semicolon) + tail)));
    } else if p1.cur.kind == LBrace {
      x := BlockFrom(src, p1, depth, p.cur.text, "", p.cur.pos, tail);
      BlockStmtToks(x, tail);
      rest := [Punct(LBrace, '{')] + (SourcesToks(x.body) + ([Punct(RBrace, '}')] + (Semi(x.semicolon) + tail)));
    } else {
      AdvanceGood(src, p1);
      var p2 := Advance(src, p1).value;
      IdentToken(src, p1, p1);
      x := BlockFrom(src, p2, depth, p.cur.text, p1.cur.text, p.cur.pos, tail);
      BlockStmtToks(x, tail);
      var block := [Punct(LBrace, '{')] + (SourcesToks(x.body) + ([Punct(RBrace, '}')] + (Semi(x.semicolon) + tail)));
      AdvanceBack(src, p1, block);
      NotEmpty(p1.cur.text);
      rest := [Lexeme(Ident, p1.cur.text)] + block;
    }
    AdvanceBack(src, q, rest);
    SameUpcoming(src, q, p, [Lexeme(Ident, p.cur.text)] + rest);
  }

  lemma NotEmpty(name: string)
    requires IsIdent(name)
    ensures name != ""
  {
  }

  lemma {:induction false} BlockFrom(src: string, p: State, depth: int, name: string, id: string, namePos: Pos,
                                     tail: seq<Lexeme>) returns (x: SourceStmt)
    requires p.i <= |src| && Good(src, p) && p.cur.kind == LBrace
    requires ParseBlock(src, p, depth, name, id, namePos).Ok?
    requires Upcoming(src, ParseBlock(src, p, depth, name, id, namePos).value.state, tail)
    ensures x.SourceBlock? && x.name == name && x.id == id
    ensures StandsFor(x, ParseBlock(src, p, depth, name, id, namePos).value.node, depth)
    ensures Upcoming(src, p,
              [Punct(LBrace, '{')] + (SourcesToks(x.body) + ([Punct(RBrace, '}')] + (Semi(x.semicolon) + tail))))
    decreases Ahead(src, p), 0
  {
    hide Upcoming, Good, Advance, ParseBody, SkipSemicolon, StandsFor, AllStandFor, SourcesToks;
    AdvanceGood(src, p);
    var p1 := Advance(src, p).value;
    BodyGood(src, p1, depth + 1, p.cur.pos);
    var body := ParseBody(src, p1, depth + 1, p.cur.pos).value;
    var semicolon := ClosingFrom(src, body.state, tail);
    var close := [Punct(RBrace, '}')] + (Semi(semicolon) + tail);
    var xs := BodyFrom(src, p1, depth + 1, p.cur.pos, close);
    x := SourceBlock(name, id, xs, semicolon);
    BlockStandsFor(name, id, xs, body.node, semicolon, namePos, depth);
    PunctText(src, p, '{');
    AdvanceBack(src, p, SourcesToks(xs) + close);
  }

  /** The closing brace and the semicolon after it. */
  lemma ClosingFrom(src: string, p: State, tail: seq<Lexeme>) returns (semicolon: bool)
    requires p.i <= |src| && Good(src, p) && p.cur.kind == RBrace && Advance(src, p).Ok?
    requires SkipSemicolon(src, Advance(src, p).value).Ok?
    requires Upcoming(src, SkipSemicolon(src, Advance(src, p).value).value, tail)
    ensures Upcoming(src, p, [Punct(RBrace, '}')] + (Semi(semicolon) + tail))
  {
    hide Upcoming, Good, Advance, SkipSemicolon;
    AdvanceGood(src, p);
    var p2 := Advance(src, p).value;
    semicolon := p2.cur.kind == Semicolon;
    SemicolonFrom(src, p2, tail);
    PunctText(src, p, '}');
    AdvanceBack(src, p, Semi(semicolon) + tail);
  }

  lemma {:induction false} BodyFrom(src: string, p: State, depth: int, openPos: Pos, tail: seq<Lexeme>)
    returns (xs: seq<SourceStmt>)
    requires p.i <= |src| && Good(src, p) && ParseBody(src, p, depth, openPos).Ok?
    requires Upcoming(src, ParseBody(src, p, depth, openPos).value.state, tail)
    ensures AllStandFor(xs, ParseBody(src, p, depth, openPos).value.node, depth)
    ensures Upcoming(src, p, SourcesToks(xs) + tail)
    decreases Ahead(src, p), 3
  {
    hide Upcoming, Good, ParseStmt, StandsFor, AllStandFor, SourceToks, SourcesToks;
    NothingStandsFor(depth);
    if p.cur.kind == RBrace {
      xs := [];
      assert [] + tail == tail;
    } else {
      StmtGood(src, p, depth);
      var s := ParseStmt(src, p, depth).value;
      var more := BodyFrom(src, s.state, depth, openPos, tail);
      var x := StmtFrom(src, p, depth, SourcesToks(more) + tail);
      xs := [x] + more;
      StandsForCons(x, s.node, more, ParseBody(src, s.state, depth, openPos).value.node, depth);
      Regroup(SourceToks(x), SourcesToks(more), tail);
    }
  }

  lemma EndUpcoming(src: string, p: State)
    requires p.i <= |src| && Good(src, p) && p.cur.kind == EOF
    ensures Upcoming(src, p, [])
  {
  }

  lemma {:induction false} StmtsFrom(src: string, p: State) returns (xs: seq<SourceStmt>)
    requires p.i <= |src| && Good(src, p) && ParseStmts(src, p).Ok?
    ensures AllStandFor(xs, ParseStmts(src, p).value.node, 0)
    ensures Upcoming(src, p, SourcesToks(xs))
    decreases Ahead(src, p)
  {
    hide Upcoming, Good, ParseStmt, StandsFor, AllStandFor, SourceToks, SourcesToks;
    NothingStandsFor(0);
    if p.cur.kind == EOF {
      xs := [];
      EndUpcoming(src, p);
    } else {
      StmtGood(src, p, 0);
      var s := ParseStmt(src, p, 0).value;
      var more := StmtsFrom(src, s.state);
      var x := StmtFrom(src, p, 0, SourcesToks(more));
      xs := [x] + more;
      StandsForCons(x, s.node, more, ParseStmts(src, s.state).value.node, 0);
    }
  }

  lemma VersionFrom(src: string, p: State, tail: seq<Lexeme>) returns (text: string, semicolon: bool)
    requires p.i <= |src| && Good(src, p) && p.cur.kind == AtVersion && ParseVersion(src, p).Ok?
    requires Upcoming(src, ParseVersion(src, p).value.state, tail)
    ensures IsNumberText(text) && ParseInt(text) == Some(ParseVersion(src, p).value.node)
    ensures Upcoming(src, p, DirectiveToks(text) + (Semi(semicolon) + tail))
  {
    hide Upcoming, Good, Advance, SkipSemicolon, ParseInt, IsNumberText;
    AdvanceGood(src, p);
    var p1 := Advance(src, p).value;
    AdvanceGood(src, p1);
    var p2 := Advance(src, p1).value;
    AdvanceGood(src, p2);
    var p3 := Advance(src, p2).value;
    text, semicolon := p2.cur.text, p3.cur.kind == Semicolon;
    LiteralText(src, p);
    LiteralText(src, p2);
    SemicolonFrom(src, p3, tail);
    var rest := Semi(semicolon) + tail;
    AdvanceBack(src, p2, rest);
    PunctText(src, p1, ':');
    AdvanceBack(src, p1, [Lexeme(Num, text)] + rest);
    AdvanceBack(src, p, [Punct(Colon, ':')] + ([Lexeme(Num, text)] + rest));
    assert DirectiveToks(text) + rest
        == [Lexeme(AtVersion, "@version")] + ([Punct(Colon, ':')] + ([Lexeme(Num, text)] + rest));
  }

  lemma FileFrom(src: string, p: State) returns (x: SourceFile)
    requires p.i <= |src| && Good(src, p) && ParseFile(src, p).Ok? && FileOk(ParseFile(src, p).value)
    ensures SourceOk(x) && UnplacedFile(ParseFile(src, p).value) == UnplacedFile(FileMeaning(x))
    ensures Upcoming(src, p, FileToks(x))
  {
    hide Upcoming, Good, ParseVersion, ParseStmts, SourcesToks, ParseInt, IsNumberText, StmtsOk, CountStmts,
         UnplacedAll, Meanings;
    if p.cur.kind == AtVersion {
      VersionGood(src, p);
      var v := ParseVersion(src, p).value;
      var xs := StmtsFrom(src, v.state);
      var text, semicolon := VersionFrom(src, p, SourcesToks(xs));
      x := SourceFile(Some(text), semicolon, xs);
      Regroup(DirectiveToks(text), Semi(semicolon), SourcesToks(xs));
    } else {
      var xs := StmtsFrom(src, p);
      x := SourceFile(None, false, xs);
      assert FileToks(x) == SourcesToks(xs);
    }
  }

  lemma StartBack(src: string, toks: seq<Lexeme>)
    requires var p1 := Advance(src, State(Blank, Blank, 0, 0));
             p1.Ok? && Advance(src, p1.value).Ok? && Upcoming(src, Advance(src, p1.value).value, toks)
    ensures Reads(src, toks)
  {
    hide Reads, Next;
    assert src[0..] == src;
    var i1 := Next(src, 0).value.i;
    NextEnds(src, 0);
    NextEnds(src, i1);
    if |toks| >= 2 {
      NextReadsBack(src, i1, toks[2..]);
      assert [toks[1]] + toks[2..] == toks[1..];
      NextReadsBack(src, 0, toks[1..]);
      assert [toks[0]] + toks[1..] == toks;
    } else if |toks| == 1 {
      NextReadsBack(src, 0, []);
      assert [toks[0]] + [] == toks;
    }
  }

  // ---- The language ----

  /** The text is a source file within the limits, written somehow. */
  ghost predicate Denotes(src: string, x: SourceFile) {
    SourceOk(x) && Written(src, FileToks(x))
  }

  /** Whatever is accepted is a written source file, and the tree is the one it stands for. */
  lemma AcceptedDenotes(src: string) returns (x: SourceFile)
    requires Parse(src).Ok?
    ensures ByteLen(src) <= MaxSourceBytes && NoNul(src)
    ensures Denotes(src, x) && UnplacedFile(Parse(src).value) == UnplacedFile(FileMeaning(x))
  {
    hide ParseFile, Advance, Good, ByteLen, Upcoming, Reads, Written, FileToks, SourceOk, UnplacedFile, FileOk;
    assert src[..|src|] == src;
    StartGood(src);
    ParseObeysLimits(src);
    x := FileFrom(src, Advance(src, Advance(src, State(Blank, Blank, 0, 0)).value).value);
    StartBack(src, FileToks(x));
    ScansExactly(src, FileToks(x));
  }

  /** A source is accepted exactly when it is at most a megabyte, holds no NUL, and is some source file within the
      limits: statements and version each with or without their semicolon, in any spelling, with any blanks and
      comments between the tokens. */
  lemma AcceptedExactly(src: string)
    ensures Parse(src).Ok? <==>
            ByteLen(src) <= MaxSourceBytes && NoNul(src) && exists x :: Denotes(src, x)
  {
    hide Parse, ByteLen, NoNul, Denotes;
    if Parse(src).Ok? {
      var x := AcceptedDenotes(src);
    }
    if x :| ByteLen(src) <= MaxSourceBytes && NoNul(src) && Denotes(src, x) {
      AcceptedAs(src, x);
    }
  }

  /** And it is accepted as the tree that the source file stands for, whichever is taken. */
  lemma AcceptedAs(src: string, x: SourceFile)
    requires ByteLen(src) <= MaxSourceBytes && NoNul(src) && Denotes(src, x)
    ensures Parse(src).Ok? && UnplacedFile(Parse(src).value) == UnplacedFile(FileMeaning(x))
  {
    hide Parse, ByteLen, NoNul, Written, FileToks, SourceOk, Reads, UnplacedFile;
    ScansExactly(src, FileToks(x));
    ParsesTokens(src, x);
  }
}
