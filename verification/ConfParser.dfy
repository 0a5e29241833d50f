/** Recursive descent over the token stream, as functions of the parser state (conf/parser.go).
    Module ConfParserImpl has the stateful parser. */
module ConfParser {
  import opened Prelude
  import opened ConfText
  import opened ConfNumber
  import opened ConfAst
  import opened ConfLexer

  /** Two tokens of lookahead, the lexer offset behind them, and the statements counted so far. */
  datatype State = State(cur: Token, peek: Token, i: nat, stmts: int)

  datatype Parsed<+T> = Parsed(node: T, state: State)

  type Outcome<+T> = Result<Parsed<T>, ConfError>

  /** Tokens still ahead, bounded: every step over a token other than the end makes it smaller. */
  function Ahead(src: string, p: State): nat
    requires p.i <= |src|
  {
    |src| - p.i + (if p.cur.kind == EOF then 0 else 1) + (if p.peek.kind == EOF then 0 else 1)
  }

  function Fail<T>(problem: Problem, pos: Pos): Result<T, ConfError> {
    Err(ConfError(problem, pos))
  }

  function Advance(src: string, p: State): (r: Result<State, ConfError>)
    requires p.i <= |src|
    ensures r.Ok? ==> r.value.i <= |src| && r.value.stmts == p.stmts
    ensures r.Ok? && p.cur.kind != EOF ==> Ahead(src, r.value) < Ahead(src, p)
  {
    var step :- Next(src, p.i);
    Ok(State(p.peek, step.token, step.i, p.stmts))
  }

  /** Steps over one optional semicolon. */
  function SkipSemicolon(src: string, p: State): (r: Result<State, ConfError>)
    requires p.i <= |src|
    ensures r.Ok? ==> r.value.i <= |src| && Ahead(src, r.value) <= Ahead(src, p)
  {
    if p.cur.kind == Semicolon then Advance(src, p) else Ok(p)
  }

  function ParseValue(src: string, p: State, depth: int): (r: Outcome<Value>)
    requires p.i <= |src|
    ensures r.Ok? ==> r.value.state.i <= |src| && Ahead(src, r.value.state) < Ahead(src, p)
    decreases Ahead(src, p), 0
  {
    match p.cur.kind
    case Str =>
      var p1 :- Advance(src, p);
      Ok(Parsed(StringLit(p.cur.text, p.cur.pos), p1))
    case Num =>
      (match ParseNumberLit(p.cur.text)
       case None => Fail(InvalidNumber, p.cur.pos)
       case Some(n) =>
         var p1 :- Advance(src, p);
         Ok(Parsed(NumberLit(p.cur.text, n, p.cur.pos), p1)))
    case True =>
      var p1 :- Advance(src, p);
      Ok(Parsed(BoolLit(true, p.cur.pos), p1))
    case False =>
      var p1 :- Advance(src, p);
      Ok(Parsed(BoolLit(false, p.cur.pos), p1))
    case Ident =>
      var p1 :- Advance(src, p);
      if p1.cur.kind == LParen then
        var call :- ParseCallTail(src, p1, depth, p.cur.text, p.cur.pos, false);
        Ok(Parsed(CallValue(call.node), call.state))
      else Ok(Parsed(IdentLit(p.cur.text, p.cur.pos), p1))
    case _ => Fail(ExpectedValue, p.cur.pos)
  }

  /** Called on the opening parenthesis. */
  function ParseCallTail(src: string, p: State, depth: int, name: string, namePos: Pos, asStmt: bool)
    : (r: Outcome<Call>)
    requires p.i <= |src| && p.cur.kind == LParen
    ensures r.Ok? ==> r.value.state.i <= |src| && Ahead(src, r.value.state) < Ahead(src, p)
    decreases Ahead(src, p), 0
  {
    if depth + 1 > MaxNestingDepth then Fail(TooDeep, p.cur.pos)
    else
      var p1 :- Advance(src, p);
      var args :- if p1.cur.kind == RParen then Ok(Parsed([], p1)) else ParseArgs(src, p1, depth + 1, 0);
      var p2 := args.state;
      if p2.cur.kind == EOF then Fail(UnclosedParen, p.cur.pos)
      else if p2.cur.kind != RParen then Fail(ExpectedParenOrComma, p2.cur.pos)
      else
        var p3 :- Advance(src, p2);
        var p4 :- if asStmt then SkipSemicolon(src, p3) else Ok(p3);
        Ok(Parsed(Call(name, args.node, namePos, asStmt && p3.cur.kind == Semicolon), p4))
  }

  /** One or more comma-separated values, `count` of them already read. */
  function ParseArgs(src: string, p: State, depth: int, count: nat): (r: Outcome<seq<Value>>)
    requires p.i <= |src|
    ensures r.Ok? ==> r.value.state.i <= |src| && Ahead(src, r.value.state) < Ahead(src, p)
    decreases Ahead(src, p), 1
  {
    if count >= MaxArgs then Fail(TooManyArgs, p.cur.pos)
    else
      var v :- ParseValue(src, p, depth);
      if v.state.cur.kind != Comma then Ok(Parsed([v.node], v.state))
      else
        var p1 :- Advance(src, v.state);
        if p1.cur.kind == RParen then Fail(TrailingComma, p1.cur.pos)
        else
          var rest :- ParseArgs(src, p1, depth, count + 1);
          Ok(Parsed([v.node] + rest.node, rest.state))
  }

  function ParseStmt(src: string, p: State, depth: int): (r: Outcome<Stmt>)
    requires p.i <= |src|
    ensures r.Ok? ==> r.value.state.i <= |src| && Ahead(src, r.value.state) < Ahead(src, p)
    decreases Ahead(src, p), 0
  {
    if p.cur.kind != Ident then Fail(ExpectedStatement, p.cur.pos)
    else if p.stmts + 1 > MaxStatements then Fail(TooManyStatements, p.cur.pos)
    else
      var p1 :- Advance(src, p.(stmts := p.stmts + 1));
      match p1.cur.kind
      case LBrace => ParseBlock(src, p1, depth, p.cur.text, "", p.cur.pos)
      case Ident =>
        var p2 :- Advance(src, p1);
        if p2.cur.kind != LBrace then Fail(ExpectedBrace, p2.cur.pos)
        else ParseBlock(src, p2, depth, p.cur.text, p1.cur.text, p.cur.pos)
      case LParen =>
        var call :- ParseCallTail(src, p1, depth, p.cur.text, p.cur.pos, true);
        Ok(Parsed(CallStmt(call.node), call.state))
      case _ => Fail(ExpectedParenOrBrace, p1.cur.pos)
  }

  /** Called on the opening brace. */
  function ParseBlock(src: string, p: State, depth: int, name: string, id: string, namePos: Pos): (r: Outcome<Stmt>)
    requires p.i <= |src| && p.cur.kind == LBrace
    ensures r.Ok? ==> r.value.state.i <= |src| && Ahead(src, r.value.state) < Ahead(src, p)
    decreases Ahead(src, p), 0
  {
    if depth + 1 > MaxNestingDepth then Fail(TooDeep, p.cur.pos)
    else
      var p1 :- Advance(src, p);
      var body :- ParseBody(src, p1, depth + 1, p.cur.pos);
      var p2 :- Advance(src, body.state);
      var p3 :- SkipSemicolon(src, p2);
      Ok(Parsed(Block(name, id, body.node, namePos), p3))
  }

  /** Statements up to the closing brace, which stays current. */
  function ParseBody(src: string, p: State, depth: int, openPos: Pos): (r: Outcome<seq<Stmt>>)
    requires p.i <= |src|
    ensures r.Ok? ==>
              && r.value.state.i <= |src|
              && Ahead(src, r.value.state) <= Ahead(src, p)
              && r.value.state.cur.kind == RBrace
    decreases Ahead(src, p), 1
  {
    if p.cur.kind == RBrace then Ok(Parsed([], p))
    else if p.cur.kind == EOF then Fail(UnclosedBrace, openPos)
    else
      var s :- ParseStmt(src, p, depth);
      var rest :- ParseBody(src, s.state, depth, openPos);
      Ok(Parsed([s.node] + rest.node, rest.state))
  }

  /** Called on the directive. */
  function ParseVersion(src: string, p: State): (r: Outcome<int>)
    requires p.i <= |src| && p.cur.kind == AtVersion
    ensures r.Ok? ==> r.value.state.i <= |src|
  {
    var p1 :- Advance(src, p);
    if p1.cur.kind != Colon then Fail(ExpectedVersionColon, p1.cur.pos)
    else
      var p2 :- Advance(src, p1);
      if p2.cur.kind != Num then Fail(ExpectedVersionNumber, p2.cur.pos)
      else
        match ParseInt(p2.cur.text)
        case None => Fail(InvalidVersion, p2.cur.pos)
        case Some(n) =>
          if n < 1 then Fail(InvalidVersion, p2.cur.pos)
          else
            var p3 :- Advance(src, p2);
            var p4 :- SkipSemicolon(src, p3);
            Ok(Parsed(n, p4))
  }

  /** Top-level statements up to the end of the source. */
  function ParseStmts(src: string, p: State): (r: Outcome<seq<Stmt>>)
    requires p.i <= |src|
    decreases Ahead(src, p)
  {
    if p.cur.kind == EOF then Ok(Parsed([], p))
    else
      var s :- ParseStmt(src, p, 0);
      var rest :- ParseStmts(src, s.state);
      Ok(Parsed([s.node] + rest.node, rest.state))
  }

  /** The first NUL, or the length of the text. */
  function NulIndex(src: string): (n: nat)
    ensures n <= |src|
    ensures n < |src| ==> src[n] == '\0'
    ensures NoNul(src[..n])
  {
    if src == "" || src[0] == '\0' then 0
    else
      var n := NulIndex(src[1..]);
      assert src[..1 + n] == [src[0]] + src[1..][..n];
      1 + n
  }

  /** The NUL diagnostic counts bytes, not characters, in its column. */
  function NulPos(before: string): Pos {
    Pos(1 + Newlines(before), 1 + ByteLen(before[|before| - LastLineLen(before)..]))
  }

  const Blank := Token(EOF, "", NoPos)

  function ParseFile(src: string, p: State): Result<File, ConfError>
    requires p.i <= |src|
  {
    var version :- if p.cur.kind == AtVersion then ParseVersion(src, p) else Ok(Parsed(0, p));
    var body :- ParseStmts(src, version.state);
    Ok(File(version.node, body.node))
  }

  function Parse(src: string): Result<File, ConfError> {
    if ByteLen(src) > MaxSourceBytes then Fail(SourceTooLong, NoPos)
    else if NulIndex(src) < |src| then Fail(NulInSource, NulPos(src[..NulIndex(src)]))
    else
      var p1 :- Advance(src, State(Blank, Blank, 0, 0));
      var p2 :- Advance(src, p1);
      ParseFile(src, p2)
  }
}
