/** The parser as the program runs it: two lookahead tokens, a nesting depth and a statement count
    that change as loops collect statements and arguments (conf/parser.go). */
module ConfParserImpl {
  import opened Prelude
  import opened ConfText
  import opened ConfNumber
  import opened ConfAst
  import opened ConfLexer
  import opened ConfLexerImpl
  import P = ConfParser

  /** The outcome of the remaining elements, with `done` collected in front of them. */
  ghost function After<T>(done: seq<T>, rest: P.Outcome<seq<T>>): P.Outcome<seq<T>> {
    match rest
    case Err(e) => Err(e)
    case Ok(p) => Ok(P.Parsed(done + p.node, p.state))
  }

  lemma AfterNothing<T>(rest: P.Outcome<seq<T>>)
    ensures After([], rest) == rest
  {
    if rest.Ok? {
      assert [] + rest.value.node == rest.value.node;
    }
  }

  lemma AfterOneMore<T>(done: seq<T>, x: T, rest: P.Outcome<seq<T>>)
    ensures After(done, After([x], rest)) == After(done + [x], rest)
  {
    if rest.Ok? {
      assert done + ([x] + rest.value.node) == done + [x] + rest.value.node;
    }
  }

  class Parser {
    const lex: Lexer
    var cur: Token
    var peek: Token
    var depth: int
    var stmts: int

    ghost predicate Valid()
      reads this, lex
    {
      lex.Valid()
    }

    ghost function St(): (p: P.State)
      requires Valid()
      reads this, lex
      ensures p.i <= |lex.src|
    {
      P.State(cur, peek, lex.i, stmts)
    }

    /** The method's result and final state are those of the parsing function. */
    ghost predicate Matches<T>(r: Result<T, ConfError>, spec: P.Outcome<T>, depthBefore: int)
      requires Valid()
      reads this, lex
    {
      match spec
      case Err(e) => r == Err(e)
      case Ok(p) => r == Ok(p.node) && St() == p.state && depth == depthBefore
    }

    constructor (src: string)
      ensures Valid() && fresh(lex)
      ensures lex.src == src && depth == 0
      ensures St() == P.State(P.Blank, P.Blank, 0, 0)
    {
      lex := new Lexer(src);
      cur, peek := P.Blank, P.Blank;
      depth, stmts := 0, 0;
    }

    method Advance() returns (r: Result<(), ConfError>)
      requires Valid()
      modifies this`cur, this`peek, lex
      ensures Valid()
      ensures match P.Advance(lex.src, old(St()))
              case Err(e) => r == Err(e)
              case Ok(p) => r == Ok(()) && St() == p
    {
      hide Next;
      cur := peek;
      var tok :- lex.Next();
      peek := tok;
      return Ok(());
    }

    /** Steps over one optional semicolon. */
    method SkipSemicolon() returns (r: Result<(), ConfError>)
      requires Valid()
      modifies this`cur, this`peek, lex
      ensures Valid()
      ensures match P.SkipSemicolon(lex.src, old(St()))
              case Err(e) => r == Err(e)
              case Ok(p) => r == Ok(()) && St() == p
    {
      hide P.Advance, PosAt, P.Ahead;
      if cur.kind == Semicolon {
        r := Advance();
      } else {
        r := Ok(());
      }
    }

    method ParseValue() returns (r: Result<Value, ConfError>)
      requires Valid()
      modifies this, lex
      ensures Valid()
      ensures Matches(r, P.ParseValue(lex.src, old(St()), old(depth)), old(depth))
      decreases P.Ahead(lex.src, St()), 0
    {
      hide P.Advance, P.ParseCallTail, PosAt, P.Ahead;
      var t := cur;
      match t.kind
      case Str =>
        var _ :- Advance();
        return Ok(StringLit(t.text, t.pos));
      case Num =>
        var n := ParseNumberLit(t.text);
        if n.None? {
          return Err(ConfError(InvalidNumber, t.pos));
        }
        var _ :- Advance();
        return Ok(NumberLit(t.text, n.value, t.pos));
      case True =>
        var _ :- Advance();
        return Ok(BoolLit(true, t.pos));
      case False =>
        var _ :- Advance();
        return Ok(BoolLit(false, t.pos));
      case Ident =>
        var _ :- Advance();
        if cur.kind == LParen {
          var call :- ParseCallTail(t.text, t.pos, false);
          return Ok(CallValue(call));
        }
        return Ok(IdentLit(t.text, t.pos));
      case _ =>
        return Err(ConfError(ExpectedValue, t.pos));
    }

    /** One or more comma-separated values. */
    method ParseArgs() returns (r: Result<seq<Value>, ConfError>)
      requires Valid()
      modifies this, lex
      ensures Valid()
      ensures Matches(r, P.ParseArgs(lex.src, old(St()), old(depth), 0), old(depth))
      decreases P.Ahead(lex.src, St()), 1
    {
      hide P.Advance, P.ParseValue, ParseNumberLit, PosAt, P.Ahead;
      var args: seq<Value> := [];
      ghost var src, d, ahead := lex.src, depth, P.Ahead(lex.src, St());
      ghost var spec := P.ParseArgs(src, St(), d, 0);
      AfterNothing(spec);
      while true
        invariant Valid() && depth == d
        invariant P.Ahead(src, St()) <= ahead
        invariant spec == After(args, P.ParseArgs(src, St(), d, |args|))
        decreases P.Ahead(src, St())
      {
        if |args| >= MaxArgs {
          return Err(ConfError(TooManyArgs, cur.pos));
        }
        var v :- ParseValue();
        ghost var done := args;
        args := args + [v];
        if cur.kind != Comma {
          return Ok(args);
        }
        var _ :- Advance();
        if cur.kind == RParen {
          return Err(ConfError(TrailingComma, cur.pos));
        }
        AfterOneMore(done, v, P.ParseArgs(src, St(), d, |args|));
      }
    }

    method ParseCallTail(name: string, namePos: Pos, asStmt: bool) returns (r: Result<Call, ConfError>)
      requires Valid() && cur.kind == LParen
      modifies this, lex
      ensures Valid()
      ensures Matches(r, P.ParseCallTail(lex.src, old(St()), old(depth), name, namePos, asStmt), old(depth))
      decreases P.Ahead(lex.src, St()), 0
    {
      hide P.Advance, P.ParseArgs, P.SkipSemicolon, PosAt, P.Ahead;
      var openPos := cur.pos;
      depth := depth + 1;
      if depth > MaxNestingDepth {
        return Err(ConfError(TooDeep, openPos));
      }
      var _ :- Advance();
      var args: seq<Value> := [];
      if cur.kind != RParen {
        args :- ParseArgs();
      }
      if cur.kind != RParen {
        if cur.kind == EOF {
          return Err(ConfError(UnclosedParen, openPos));
        }
        return Err(ConfError(ExpectedParenOrComma, cur.pos));
      }
      var _ :- Advance();
      var trailing := asStmt && cur.kind == Semicolon;
      if asStmt {
        var _ :- SkipSemicolon();
      }
      depth := depth - 1;
      return Ok(Call(name, args, namePos, trailing));
    }

    method ParseStmt() returns (r: Result<Stmt, ConfError>)
      requires Valid()
      modifies this, lex
      ensures Valid()
      ensures Matches(r, P.ParseStmt(lex.src, old(St()), old(depth)), old(depth))
      decreases P.Ahead(lex.src, St()), 0
    {
      hide P.Advance, P.ParseBlock, P.ParseCallTail, PosAt;
      if cur.kind != Ident {
        return Err(ConfError(ExpectedStatement, cur.pos));
      }
      stmts := stmts + 1;
      if stmts > MaxStatements {
        return Err(ConfError(TooManyStatements, cur.pos));
      }
      var name, namePos := cur.text, cur.pos;
      var _ :- Advance();
      match cur.kind
      case LBrace =>
        r := ParseBlock(name, "", namePos);
      case Ident =>
        var id := cur.text;
        var _ :- Advance();
        if cur.kind != LBrace {
          return Err(ConfError(ExpectedBrace, cur.pos));
        }
        r := ParseBlock(name, id, namePos);
      case LParen =>
        var call :- ParseCallTail(name, namePos, true);
        return Ok(CallStmt(call));
      case _ =>
        return Err(ConfError(ExpectedParenOrBrace, cur.pos));
    }

    method ParseBlock(name: string, id: string, namePos: Pos) returns (r: Result<Stmt, ConfError>)
      requires Valid() && cur.kind == LBrace
      modifies this, lex
      ensures Valid()
      ensures Matches(r, P.ParseBlock(lex.src, old(St()), old(depth), name, id, namePos), old(depth))
      decreases P.Ahead(lex.src, St()), 0
    {
      hide P.Advance, P.ParseStmt, P.SkipSemicolon, PosAt, P.Ahead;
      var openPos := cur.pos;
      depth := depth + 1;
      if depth > MaxNestingDepth {
        return Err(ConfError(TooDeep, openPos));
      }
      var _ :- Advance();
      var body: seq<Stmt> := [];
      ghost var src, d, ahead := lex.src, depth, P.Ahead(lex.src, St());
      ghost var spec := P.ParseBody(src, St(), d, openPos);
      AfterNothing(spec);
      while cur.kind != RBrace
        invariant Valid() && depth == d
        invariant P.Ahead(src, St()) <= ahead
        invariant spec == After(body, P.ParseBody(src, St(), d, openPos))
        decreases P.Ahead(src, St())
      {
        if cur.kind == EOF {
          return Err(ConfError(UnclosedBrace, openPos));
        }
        var s :- ParseStmt();
        AfterOneMore(body, s, P.ParseBody(src, St(), d, openPos));
        body := body + [s];
      }
      assert body + [] == body;
      assert spec == Ok(P.Parsed(body, St()));
      var _ :- Advance();
      var _ :- SkipSemicolon();
      depth := depth - 1;
      return Ok(Block(name, id, body, namePos));
    }

    method ParseVersion() returns (r: Result<int, ConfError>)
      requires Valid() && cur.kind == AtVersion
      modifies this, lex
      ensures Valid()
      ensures Matches(r, P.ParseVersion(lex.src, old(St())), old(depth))
    {
      hide P.Advance, P.SkipSemicolon, ParseInt, PosAt, P.Ahead;
      var _ :- Advance();
      if cur.kind != Colon {
        return Err(ConfError(ExpectedVersionColon, cur.pos));
      }
      var _ :- Advance();
      if cur.kind != Num {
        return Err(ConfError(ExpectedVersionNumber, cur.pos));
      }
      var n := ParseInt(cur.text);
      if n.None? || n.value < 1 {
        return Err(ConfError(InvalidVersion, cur.pos));
      }
      var _ :- Advance();
      var _ :- SkipSemicolon();
      return Ok(n.value);
    }

    method ParseFile() returns (r: Result<File, ConfError>)
      requires Valid() && depth == 0
      modifies this, lex
      ensures r == P.ParseFile(lex.src, old(St()))
    {
      hide P.ParseVersion, P.ParseStmt, PosAt, P.Ahead;
      var version := 0;
      if cur.kind == AtVersion {
        version :- ParseVersion();
      }
      var out: seq<Stmt> := [];
      ghost var src := lex.src;
      ghost var spec := P.ParseStmts(src, St());
      AfterNothing(spec);
      while cur.kind != EOF
        invariant Valid() && depth == 0
        invariant spec == After(out, P.ParseStmts(src, St()))
        decreases P.Ahead(src, St())
      {
        var s :- ParseStmt();
        AfterOneMore(out, s, P.ParseStmts(src, St()));
        out := out + [s];
      }
      assert out + [] == out;
      return Ok(File(version, out));
    }
  }

  /** The stateful parser accepts, rejects and reports exactly as the parsing function. */
  method Parse(src: string) returns (r: Result<File, ConfError>)
    ensures r == P.Parse(src)
  {
    hide P.Advance, P.ParseFile, ByteLen, P.NulIndex, P.NulPos;
    if ByteLen(src) > MaxSourceBytes {
      return Err(ConfError(SourceTooLong, NoPos));
    }
    var k := FindNul(src);
    if k < |src| {
      var pos := NulPosition(src, k);
      return Err(ConfError(NulInSource, pos));
    }
    var p := new Parser(src);
    var _ :- p.Advance();
    var _ :- p.Advance();
    r := p.ParseFile();
  }

  method FindNul(src: string) returns (k: nat)
    ensures k == P.NulIndex(src)
  {
    k := 0;
    while k < |src| && src[k] != '\0'
      invariant k <= |src|
      invariant k + P.NulIndex(src[k..]) == P.NulIndex(src)
    {
      assert src[k..][1..] == src[k + 1..];
      k := k + 1;
    }
  }

  /** Line and byte column of the character at `k`, counted from the start of the source. */
  method NulPosition(src: string, k: nat) returns (pos: Pos)
    requires k <= |src|
    ensures pos == P.NulPos(src[..k])
  {
    var line, col, j := 1, 1, 0;
    assert src[..0] == "";
    while j < k
      invariant j <= k
      invariant Pos(line, col) == P.NulPos(src[..j])
    {
      NulPosStep(src, j);
      if src[j] == '\n' {
        line, col := line + 1, 1;
      } else {
        col := col + RuneLen(src[j]);
      }
      j := j + 1;
    }
    pos := Pos(line, col);
  }

  lemma LastLine(before: string, c: char)
    ensures LastLineLen(before + [c]) == if c == '\n' then 0 else LastLineLen(before) + 1
  {
    assert (before + [c])[..|before|] == before;
  }

  lemma LastLineBytes(before: string, c: char, n: nat)
    requires n <= |before|
    ensures ByteLen((before + [c])[|before| - n..]) == ByteLen(before[|before| - n..]) + RuneLen(c)
  {
    hide ByteLen;
    var tail := before[|before| - n..];
    assert (before + [c])[|before| - n..] == tail + [c];
    ByteLenConcat(tail, [c]);
    OneChar(c);
  }

  lemma OneChar(c: char)
    ensures ByteLen([c]) == RuneLen(c)
  {
    assert [c][..0] == "";
  }

  lemma NulPosSnoc(before: string, c: char)
    ensures P.NulPos(before + [c]) ==
            if c == '\n' then Pos(P.NulPos(before).line + 1, 1)
            else Pos(P.NulPos(before).line, P.NulPos(before).column + RuneLen(c))
  {
    hide Newlines, ByteLen, LastLineLen;
    NewlinesSnoc(before, c);
    LastLine(before, c);
    var after := before + [c];
    if c == '\n' {
      assert after[|after|..] == "";
      EmptyBytes();
    } else {
      LastLineBytes(before, c, LastLineLen(before));
    }
  }

  lemma NulPosStep(src: string, j: nat)
    requires j < |src|
    ensures P.NulPos(src[..j + 1]) ==
            if src[j] == '\n' then Pos(P.NulPos(src[..j]).line + 1, 1)
            else Pos(P.NulPos(src[..j]).line, P.NulPos(src[..j]).column + RuneLen(src[j]))
  {
    hide P.NulPos;
    assert src[..j + 1] == src[..j] + [src[j]];
    NulPosSnoc(src[..j], src[j]);
  }
}
