/** Syntax trees and diagnostics of the configuration dialect (conf/ast.go, conf/error.go). */
module ConfAst {
  import opened ConfText
  import opened ConfNumber
  import opened Prelude

  /** 1-based line and column. */
  datatype Pos = Pos(line: int, column: int)

  datatype Value =
    | StringLit(value: string, at: Pos)
    | NumberLit(text: string, number: Number, at: Pos)
    | BoolLit(flag: bool, at: Pos)
    | IdentLit(name: string, at: Pos)
    | CallValue(call: Call)

  datatype Call = Call(name: string, args: seq<Value>, namePos: Pos, trailingSem: bool)

  datatype Stmt =
    | Block(name: string, id: string, body: seq<Stmt>, namePos: Pos)
    | CallStmt(call: Call)

  /** `version` is 0 when the directive is absent; an empty block `id` means no identifier. */
  datatype File = File(version: int, stmts: seq<Stmt>)

  datatype Problem =
    | SourceTooLong | NulInSource | UnexpectedCharacter | UnknownDirective | IdentTooLong
    | ExpectedNumber | ExpectedFraction
    | UnclosedString | NulInString | NewlineInString | UnterminatedEscape | InvalidEscape | StringTooLong
    | ExpectedVersionColon | ExpectedVersionNumber | InvalidVersion
    | ExpectedStatement | ExpectedBrace | ExpectedParenOrBrace | UnclosedBrace
    | UnclosedParen | ExpectedParenOrComma | TrailingComma | ExpectedValue | InvalidNumber
    | TooDeep | TooManyStatements | TooManyArgs

  datatype ConfError = ConfError(problem: Problem, pos: Pos)

  const NoPos := Pos(0, 0)

  function StmtPos(s: Stmt): Pos {
    match s
    case Block(_, _, _, p) => p
    case CallStmt(c) => c.namePos
  }

  function ValuePos(v: Value): Pos {
    match v
    case CallValue(c) => c.namePos
    case _ => v.at
  }

  // ---- What a tree means: everything except positions and optional semicolons ----

  function EraseValue(v: Value): Value {
    match v
    case StringLit(s, _) => StringLit(s, NoPos)
    case NumberLit(t, n, _) => NumberLit(t, n, NoPos)
    case BoolLit(b, _) => BoolLit(b, NoPos)
    case IdentLit(n, _) => IdentLit(n, NoPos)
    case CallValue(c) => CallValue(EraseCall(c))
  }

  function EraseCall(c: Call): Call {
    Call(c.name, EraseValues(c.args), NoPos, false)
  }

  function EraseValues(vs: seq<Value>): (r: seq<Value>)
    ensures |r| == |vs|
  {
    if vs == [] then [] else [EraseValue(vs[0])] + EraseValues(vs[1..])
  }

  function EraseStmt(s: Stmt): Stmt {
    match s
    case Block(n, id, body, _) => Block(n, id, EraseStmts(body), NoPos)
    case CallStmt(c) => CallStmt(EraseCall(c))
  }

  function EraseStmts(ss: seq<Stmt>): (r: seq<Stmt>)
    ensures |r| == |ss|
  {
    if ss == [] then [] else [EraseStmt(ss[0])] + EraseStmts(ss[1..])
  }

  function EraseFile(f: File): File {
    File(f.version, EraseStmts(f.stmts))
  }

  lemma EraseHead(ss: seq<Stmt>, first: Stmt, rest: seq<Stmt>)
    requires EraseStmts(ss) == EraseStmts([first] + rest)
    ensures ss != [] && EraseStmt(ss[0]) == EraseStmt(first) && EraseStmts(ss[1..]) == EraseStmts(rest)
  {
    hide EraseStmt;
    var tt := [first] + rest;
    assert tt[0] == first && tt[1..] == rest;
    assert EraseStmts(ss)[0] == EraseStmts(tt)[0];
    assert EraseStmts(ss)[1..] == EraseStmts(tt)[1..];
  }

  // ---- Trees the parser can produce ----

  /** `depth` counts the blocks and calls already open around the value. */
  ghost predicate ValueOk(v: Value, depth: int) {
    match v
    case StringLit(s, _) => NoNul(s) && ByteLen(s) <= MaxStringBytes
    case NumberLit(t, n, _) => IsNumberText(t) && ParseNumberLit(t) == Some(n)
    case BoolLit(_, _) => true
    case IdentLit(n, _) => IsIdent(n)
    case CallValue(c) => CallOk(c, depth)
  }

  ghost predicate CallOk(c: Call, depth: int) {
    && IsIdent(c.name)
    && depth + 1 <= MaxNestingDepth
    && |c.args| <= MaxArgs
    && ValuesOk(c.args, depth + 1)
  }

  ghost predicate ValuesOk(vs: seq<Value>, depth: int) {
    vs != [] ==> ValueOk(vs[0], depth) && ValuesOk(vs[1..], depth)
  }

  lemma NoValuesOk(depth: int)
    ensures ValuesOk([], depth)
  {
  }

  ghost predicate StmtOk(s: Stmt, depth: int) {
    match s
    case Block(n, id, body, _) =>
      && IsIdent(n)
      && (id == "" || IsIdent(id))
      && depth + 1 <= MaxNestingDepth
      && StmtsOk(body, depth + 1)
    case CallStmt(c) => CallOk(c, depth)
  }

  ghost predicate StmtsOk(ss: seq<Stmt>, depth: int) {
    ss != [] ==> StmtOk(ss[0], depth) && StmtsOk(ss[1..], depth)
  }

  /** Statements at every level, blocks included. */
  function CountStmt(s: Stmt): nat {
    match s
    case Block(_, _, body, _) => 1 + CountStmts(body)
    case CallStmt(_) => 1
  }

  function CountStmts(ss: seq<Stmt>): nat {
    if ss == [] then 0 else CountStmt(ss[0]) + CountStmts(ss[1..])
  }

  ghost predicate FileOk(f: File) {
    && 0 <= f.version <= MaxInt64
    && StmtsOk(f.stmts, 0)
    && CountStmts(f.stmts) <= MaxStatements
  }
}
