/** Every accepted source obeys the limits, and printing it is a canonical form. */
module ConfCanonical {
  import opened ConfText
  import opened ConfNumber
  import opened ConfAst
  import opened ConfLexer
  import opened ConfParser
  import opened ConfEmit
  import opened ConfTokens
  import opened ConfSpelling
  import opened ConfRoundTrip

  // ---- Tokens ----

  /** The text of a token is one that its kind can have. */
  ghost predicate TokenOk(kind: TokenKind, text: string) {
    match kind
    case EOF => true
    case Ident => IsIdent(text)
    case True => text == "true"
    case False => text == "false"
    case Str => NoNul(text) && ByteLen(text) <= MaxStringBytes
    case Num => IsNumberText(text)
    case AtVersion => text == "@version"
    case LParen => text == "("
    case RParen => text == ")"
    case LBrace => text == "{"
    case RBrace => text == "}"
    case Comma => text == ","
    case Semicolon => text == ";"
    case Colon => text == ":"
  }

  lemma {:induction false} QuotedNoNul(q: string, v: string)
    requires Quoted(q, v)
    ensures NoNul(v)
    decreases |q|
  {
    if q != "" {
      QuotedNoNul(if q[0] == '\\' then q[2..] else q[1..], v[1..]);
      assert v[0] != '\0';
    }
  }

  lemma SpelledOk(t: string, l: Lexeme)
    requires Spells(t, l)
    ensures TokenOk(l.kind, l.text)
  {
    hide IsIdent, IsNumberText, ByteLen, Quoted, NoNul;
    if l.kind == Str {
      QuotedNoNul(t[1..|t| - 1], l.text);
    }
  }

  lemma NextOk(src: string, i: nat)
    requires i <= |src|
    ensures var r := Next(src, i); r.Ok? ==> TokenOk(r.value.token.kind, r.value.token.text)
  {
    hide ScanToken, SkipLen, TokenOk, Spells, PosAt;
    var start := i + SkipLen(src[i..]);
    if start < |src| {
      if ScanToken(src[start..]).Found? {
        var r := ScanToken(src[start..]);
        ScannedIsSpelled(src[start..]);
        SpelledOk(src[start..][..r.len], r.lexeme);
      }
    } else {
      EndOk();
    }
  }

  lemma EndOk()
    ensures TokenOk(EOF, "")
  {
  }

  // ---- Trees ----

  /** Both lookahead tokens are well formed, what follows the last token is a gap, and the statement count is within
      its limit. */
  ghost predicate Good(src: string, p: State)
    requires p.i <= |src|
  {
    && TokenOk(p.cur.kind, p.cur.text)
    && TokenOk(p.peek.kind, p.peek.text)
    && (p.cur.kind == EOF ==> p.peek.kind == EOF)
    && (p.peek.kind == EOF ==> Reads(src[p.i..], []))
    && p.stmts <= MaxStatements
  }

  /** The end comes where nothing but a gap is left. */
  lemma NextEnds(src: string, i: nat)
    requires i <= |src| && Next(src, i).Ok?
    ensures var s := Next(src, i).value; s.token.kind == EOF ==> Reads(src[s.i..], []) && Reads(src[i..], [])
    ensures Reads(src[i..], []) ==> Next(src, i).value.token.kind == EOF
  {
    hide ScanToken, SkipLen, PosAt;
    var start := i + SkipLen(src[i..]);
    if start < |src| {
      ScansNoEnd(src[start..]);
    } else {
      assert src[start..] == "";
      ReadsEnd();
    }
  }

  lemma AdvanceGood(src: string, p: State)
    requires p.i <= |src| && Good(src, p)
    ensures Advance(src, p).Ok? ==> Good(src, Advance(src, p).value)
  {
    hide Next, TokenOk, Reads;
    NextOk(src, p.i);
    if Next(src, p.i).Ok? {
      NextEnds(src, p.i);
    }
  }

  lemma SemicolonGood(src: string, p: State)
    requires p.i <= |src| && Good(src, p)
    ensures var r := SkipSemicolon(src, p); r.Ok? ==> Good(src, r.value) && r.value.stmts == p.stmts
  {
    hide Good, Advance;
    AdvanceGood(src, p);
  }

  lemma {:induction false} ValueGood(src: string, p: State, depth: int)
    requires p.i <= |src| && Good(src, p)
    ensures var r := ParseValue(src, p, depth);
            r.Ok? ==>
              && ValueOk(r.value.node, depth)
              && Good(src, r.value.state)
              && r.value.state.stmts == p.stmts
    decreases Ahead(src, p), 0
  {
    hide Advance, ParseCallTail, CallOk, NoNul, IsIdent, IsNumberText, ByteLen;
    AdvanceGood(src, p);
    if p.cur.kind == Ident && Advance(src, p).Ok? && Advance(src, p).value.cur.kind == LParen {
      CallGood(src, Advance(src, p).value, depth, p.cur.text, p.cur.pos, false);
    }
  }

  lemma {:induction false} CallGood(src: string, p: State, depth: int, name: string, namePos: Pos, asStmt: bool)
    requires p.i <= |src| && Good(src, p) && p.cur.kind == LParen && IsIdent(name)
    ensures var r := ParseCallTail(src, p, depth, name, namePos, asStmt);
            r.Ok? ==>
              && CallOk(r.value.node, depth)
              && Good(src, r.value.state)
              && r.value.state.stmts == p.stmts
    decreases Ahead(src, p), 0
  {
    hide Advance, ParseArgs, Good, IsIdent, SkipSemicolon, ValuesOk;
    AdvanceGood(src, p);
    NoValuesOk(depth + 1);
    if depth + 1 <= MaxNestingDepth && Advance(src, p).Ok? {
      var p1 := Advance(src, p).value;
      if p1.cur.kind == RParen {
        CloseGood(src, p1, asStmt);
      } else {
        ArgsGood(src, p1, depth + 1, 0);
        if ParseArgs(src, p1, depth + 1, 0).Ok? {
          CloseGood(src, ParseArgs(src, p1, depth + 1, 0).value.state, asStmt);
        }
      }
    }
  }

  lemma CloseGood(src: string, p: State, asStmt: bool)
    requires p.i <= |src| && Good(src, p)
    ensures Advance(src, p).Ok? ==>
              var p1 := Advance(src, p).value;
              var r := SkipSemicolon(src, p1);
              && Good(src, p1)
              && p1.stmts == p.stmts
              && (r.Ok? ==> Good(src, r.value) && r.value.stmts == p.stmts)
  {
    hide Good, SkipSemicolon;
    AdvanceGood(src, p);
    if Advance(src, p).Ok? {
      SemicolonGood(src, Advance(src, p).value);
    }
  }

  lemma {:induction false} ArgsGood(src: string, p: State, depth: int, count: nat)
    requires p.i <= |src| && Good(src, p)
    ensures var r := ParseArgs(src, p, depth, count);
            r.Ok? ==>
              && ValuesOk(r.value.node, depth)
              && count + |r.value.node| <= MaxArgs
              && Good(src, r.value.state)
              && r.value.state.stmts == p.stmts
    decreases Ahead(src, p), 1
  {
    hide Advance, ParseValue, Good, ValueOk;
    if count < MaxArgs {
      ValueGood(src, p, depth);
      var v := ParseValue(src, p, depth);
      if v.Ok? && v.value.state.cur.kind == Comma {
        var p1 := Advance(src, v.value.state);
        AdvanceGood(src, v.value.state);
        if p1.Ok? && p1.value.cur.kind != RParen {
          ArgsGood(src, p1.value, depth, count + 1);
          var rest := ParseArgs(src, p1.value, depth, count + 1);
          assert rest.Ok? ==> ([v.value.node] + rest.value.node)[1..] == rest.value.node;
        }
      }
    }
  }

  lemma {:induction false} StmtGood(src: string, p: State, depth: int)
    requires p.i <= |src| && Good(src, p)
    ensures var r := ParseStmt(src, p, depth);
            r.Ok? ==>
              && StmtOk(r.value.node, depth)
              && Good(src, r.value.state)
              && r.value.state.stmts == p.stmts + CountStmt(r.value.node)
    decreases Ahead(src, p), 2
  {
    hide Advance, ParseBlock, ParseCallTail, CallOk, IsIdent, StmtOk, CountStmt, Good;
    var q := p.(stmts := p.stmts + 1);
    if p.cur.kind == Ident && q.stmts <= MaxStatements {
      IdentToken(src, p, q);
      AdvanceGood(src, q);
      if Advance(src, q).Ok? {
        var p1 := Advance(src, q).value;
        if p1.cur.kind == LBrace {
          BlockGood(src, p1, depth, p.cur.text, "", p.cur.pos);
        } else if p1.cur.kind == Ident {
          IdentToken(src, p1, p1);
          AdvanceGood(src, p1);
          if Advance(src, p1).Ok? && Advance(src, p1).value.cur.kind == LBrace {
            BlockGood(src, Advance(src, p1).value, depth, p.cur.text, p1.cur.text, p.cur.pos);
          }
        } else if p1.cur.kind == LParen {
          CallGood(src, p1, depth, p.cur.text, p.cur.pos, true);
          var call := ParseCallTail(src, p1, depth, p.cur.text, p.cur.pos, true);
          if call.Ok? {
            CallStmtGood(call.value.node, depth);
          }
        }
      }
    }
  }

  lemma IdentToken(src: string, p: State, q: State)
    requires p.i <= |src| && Good(src, p) && p.cur.kind == Ident
    requires q.stmts <= MaxStatements && q == p.(stmts := q.stmts)
    ensures Good(src, q) && IsIdent(p.cur.text)
  {
    hide IsIdent, IsNumberText, ByteLen;
  }

  lemma CallStmtGood(c: Call, depth: int)
    requires CallOk(c, depth)
    ensures StmtOk(CallStmt(c), depth) && CountStmt(CallStmt(c)) == 1
  {
    hide CallOk;
  }

  lemma {:induction false} BlockGood(src: string, p: State, depth: int, name: string, id: string, namePos: Pos)
    requires p.i <= |src| && Good(src, p) && p.cur.kind == LBrace
    requires IsIdent(name) && (id == "" || IsIdent(id))
    ensures var r := ParseBlock(src, p, depth, name, id, namePos);
            r.Ok? ==>
              && StmtOk(r.value.node, depth)
              && Good(src, r.value.state)
              && r.value.state.stmts == p.stmts - 1 + CountStmt(r.value.node)
    decreases Ahead(src, p), 0
  {
    hide Advance, ParseBody, Good, IsIdent, SkipSemicolon, StmtsOk, CountStmts, StmtOk, CountStmt;
    AdvanceGood(src, p);
    if depth + 1 <= MaxNestingDepth && Advance(src, p).Ok? {
      var p1 := Advance(src, p).value;
      BodyGood(src, p1, depth + 1, p.cur.pos);
      var body := ParseBody(src, p1, depth + 1, p.cur.pos);
      if body.Ok? {
        CloseGood(src, body.value.state, true);
        BlockOk(name, id, body.value.node, namePos, depth);
      }
    }
  }

  lemma BlockOk(name: string, id: string, body: seq<Stmt>, namePos: Pos, depth: int)
    requires IsIdent(name) && (id == "" || IsIdent(id)) && depth + 1 <= MaxNestingDepth && StmtsOk(body, depth + 1)
    ensures StmtOk(Block(name, id, body, namePos), depth)
    ensures CountStmt(Block(name, id, body, namePos)) == 1 + CountStmts(body)
  {
    hide IsIdent, StmtsOk, CountStmts;
  }

  lemma {:induction false} BodyGood(src: string, p: State, depth: int, openPos: Pos)
    requires p.i <= |src| && Good(src, p)
    ensures var r := ParseBody(src, p, depth, openPos);
            r.Ok? ==>
              && StmtsOk(r.value.node, depth)
              && Good(src, r.value.state)
              && r.value.state.stmts == p.stmts + CountStmts(r.value.node)
    decreases Ahead(src, p), 3
  {
    hide ParseStmt, Good, StmtOk, CountStmt;
    if p.cur.kind != RBrace && p.cur.kind != EOF {
      StmtGood(src, p, depth);
      var s := ParseStmt(src, p, depth);
      if s.Ok? {
        BodyGood(src, s.value.state, depth, openPos);
        var rest := ParseBody(src, s.value.state, depth, openPos);
        assert rest.Ok? ==> ([s.value.node] + rest.value.node)[1..] == rest.value.node;
      }
    }
  }

  lemma {:induction false} StmtsGood(src: string, p: State)
    requires p.i <= |src| && Good(src, p)
    ensures var r := ParseStmts(src, p);
            r.Ok? ==>
              && StmtsOk(r.value.node, 0)
              && p.stmts + CountStmts(r.value.node) <= MaxStatements
    decreases Ahead(src, p)
  {
    hide ParseStmt, StmtOk, CountStmt, TokenOk;
    if p.cur.kind != EOF {
      StmtGood(src, p, 0);
      var s := ParseStmt(src, p, 0);
      if s.Ok? {
        StmtsGood(src, s.value.state);
        var rest := ParseStmts(src, s.value.state);
        assert rest.Ok? ==> ([s.value.node] + rest.value.node)[1..] == rest.value.node;
      }
    }
  }

  lemma VersionGood(src: string, p: State)
    requires p.i <= |src| && Good(src, p) && p.cur.kind == AtVersion
    ensures var r := ParseVersion(src, p);
            r.Ok? ==>
              && 1 <= r.value.node <= MaxInt64
              && Good(src, r.value.state)
              && r.value.state.stmts == p.stmts
  {
    hide Advance, Good, SkipSemicolon;
    AdvanceGood(src, p);
    if Advance(src, p).Ok? {
      var p1 := Advance(src, p).value;
      AdvanceGood(src, p1);
      if Advance(src, p1).Ok? {
        var p2 := Advance(src, p1).value;
        AdvanceGood(src, p2);
        if Advance(src, p2).Ok? {
          SemicolonGood(src, Advance(src, p2).value);
        }
      }
    }
  }

  /** Accepted trees obey the nesting, statement, argument, name and string limits. */
  lemma ParseObeysLimits(src: string)
    requires Parse(src).Ok?
    ensures FileOk(Parse(src).value)
  {
    hide ParseVersion, ParseStmts, Advance, Good, StmtsOk, CountStmts, ByteLen;
    StartGood(src);
    var p2 := Advance(src, Advance(src, State(Blank, Blank, 0, 0)).value).value;
    if p2.cur.kind == AtVersion {
      VersionGood(src, p2);
      StmtsGood(src, ParseVersion(src, p2).value.state);
    } else {
      StmtsGood(src, p2);
    }
  }

  lemma StartGood(src: string)
    ensures var p1 := Advance(src, State(Blank, Blank, 0, 0));
            p1.Ok? && Advance(src, p1.value).Ok? ==>
              Good(src, Advance(src, p1.value).value) && Advance(src, p1.value).value.stmts == 0
  {
    hide Next, TokenOk, Reads;
    var p1 := Advance(src, State(Blank, Blank, 0, 0));
    if p1.Ok? && Advance(src, p1.value).Ok? {
      NextOk(src, 0);
      NextEnds(src, 0);
      NextOk(src, p1.value.i);
      NextEnds(src, p1.value.i);
    }
  }

  /** Printing is a canonical form of an accepted source: it parses to the same tree and prints
      to the same text. */
  lemma Canonical(src: string, option: string)
    requires Parse(src).Ok? && IsBlank(option)
    requires ByteLen(EmitText(Parse(src).value, option)) <= MaxSourceBytes
    ensures var f := Parse(src).value;
            var again := Parse(EmitText(f, option));
            && again.Ok?
            && EraseFile(again.value) == EraseFile(f)
            && EmitText(again.value, option) == EmitText(f, option)
  {
    hide Parse, EmitText, FileOk, EraseFile;
    var f := Parse(src).value;
    ParseObeysLimits(src);
    RoundTrip(f, option);
    EmitIgnoresPositions(Parse(EmitText(f, option)).value, f, option);
  }
}
