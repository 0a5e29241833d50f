/** Pretty-printing: the text of a tree, and the emitter that writes it to a shared builder (conf/emit.go). */
module ConfEmit {
  import opened Prelude
  import opened ConfNumber
  import opened ConfAst

  // ---- The text of a tree ----

  function EscapeChar(c: char): string {
    match c
    case '"' => "\\\""
    case '\\' => "\\\\"
    case '\n' => "\\n"
    case '\t' => "\\t"
    case '\r' => "\\r"
    case _ => [c]
  }

  function Escape(s: string): string {
    if s == "" then "" else EscapeChar(s[0]) + Escape(s[1..])
  }

  function ValueText(v: Value): string {
    match v
    case StringLit(s, _) => "\"" + Escape(s) + "\""
    case NumberLit(t, _, _) => t
    case BoolLit(b, _) => if b then "true" else "false"
    case IdentLit(n, _) => n
    case CallValue(c) => CallText(c)
  }

  function CallText(c: Call): string {
    c.name + "(" + ArgsText(c.args) + ")"
  }

  function ArgsText(vs: seq<Value>): string {
    if vs == [] then ""
    else if |vs| == 1 then ValueText(vs[0])
    else ValueText(vs[0]) + ", " + ArgsText(vs[1..])
  }

  function Repeat(s: string, n: nat): string {
    if n == 0 then "" else s + Repeat(s, n - 1)
  }

  function Header(name: string, id: string): string {
    name + (if id == "" then "" else " " + id) + " {\n"
  }

  function StmtText(s: Stmt, depth: nat, indent: string): string {
    match s
    case Block(name, id, body, _) =>
      Repeat(indent, depth) + Header(name, id) + StmtsText(body, depth + 1, indent) + Repeat(indent, depth) + "}\n"
    case CallStmt(c) => Repeat(indent, depth) + CallText(c) + "\n"
  }

  function StmtsText(ss: seq<Stmt>, depth: nat, indent: string): string {
    if ss == [] then "" else StmtText(ss[0], depth, indent) + StmtsText(ss[1..], depth, indent)
  }

  /** Two adjacent top-level blocks are separated by a blank line. */
  function TopText(ss: seq<Stmt>, indent: string): string {
    if ss == [] then ""
    else StmtText(ss[0], 0, indent)
         + (if |ss| > 1 && ss[0].Block? && ss[1].Block? then "\n" else "")
         + TopText(ss[1..], indent)
  }

  function VersionText(version: int): string {
    if version > 0 then "@version: " + Itoa(version) + "\n\n" else ""
  }

  function Indent(option: string): string {
    if option == "" then "  " else option
  }

  function EmitText(f: File, option: string): string {
    VersionText(f.version) + TopText(f.stmts, Indent(option))
  }

  // ---- The text ignores positions and semicolons ----

  lemma {:induction false} ValueTextErased(v: Value)
    ensures ValueText(EraseValue(v)) == ValueText(v)
    decreases v, 0
  {
    if v.CallValue? {
      ArgsTextErased(v.call.args);
    }
  }

  lemma {:induction false} ArgsTextErased(vs: seq<Value>)
    ensures ArgsText(EraseValues(vs)) == ArgsText(vs)
    decreases vs, 0
  {
    if vs != [] {
      ValueTextErased(vs[0]);
      ArgsTextErased(vs[1..]);
      assert EraseValues(vs)[1..] == EraseValues(vs[1..]);
    }
  }

  lemma {:induction false} StmtTextErased(s: Stmt, depth: nat, indent: string)
    ensures StmtText(EraseStmt(s), depth, indent) == StmtText(s, depth, indent)
    decreases s, 0
  {
    match s
    case Block(_, _, body, _) => StmtsTextErased(body, depth + 1, indent);
    case CallStmt(c) => ArgsTextErased(c.args);
  }

  lemma {:induction false} StmtsTextErased(ss: seq<Stmt>, depth: nat, indent: string)
    ensures StmtsText(EraseStmts(ss), depth, indent) == StmtsText(ss, depth, indent)
    decreases ss, 0
  {
    if ss != [] {
      StmtTextErased(ss[0], depth, indent);
      StmtsTextErased(ss[1..], depth, indent);
      assert EraseStmts(ss)[1..] == EraseStmts(ss[1..]);
    }
  }

  lemma {:induction false} TopTextErased(ss: seq<Stmt>, indent: string)
    ensures TopText(EraseStmts(ss), indent) == TopText(ss, indent)
  {
    if ss != [] {
      StmtTextErased(ss[0], 0, indent);
      TopTextErased(ss[1..], indent);
      assert EraseStmts(ss)[1..] == EraseStmts(ss[1..]);
      assert |ss| > 1 ==> EraseStmts(ss)[1] == EraseStmts(ss[1..])[0];
    }
  }

  /** Trees that differ only in positions and optional semicolons print alike. */
  lemma EmitIgnoresPositions(f: File, g: File, option: string)
    requires EraseFile(f) == EraseFile(g)
    ensures EmitText(f, option) == EmitText(g, option)
  {
    TopTextErased(f.stmts, Indent(option));
    TopTextErased(g.stmts, Indent(option));
  }

  // ---- Layout ----

  /** A printed line and how many blocks are open around it. */
  datatype Line = Line(level: nat, text: string)

  function LinesText(lines: seq<Line>, indent: string): string {
    if lines == [] then ""
    else Repeat(indent, lines[0].level) + lines[0].text + "\n" + LinesText(lines[1..], indent)
  }

  /** A call is a line; a block is a line that opens it, its statements one level further in, and a line that closes
      it. */
  function StmtLines(s: Stmt, level: nat): seq<Line> {
    match s
    case Block(name, id, body, _) =>
      [Line(level, name + (if id == "" then "" else " " + id) + " {")]
      + StmtsLines(body, level + 1)
      + [Line(level, "}")]
    case CallStmt(c) => [Line(level, CallText(c))]
  }

  function StmtsLines(ss: seq<Stmt>, level: nat): seq<Line> {
    if ss == [] then [] else StmtLines(ss[0], level) + StmtsLines(ss[1..], level)
  }

  lemma {:induction false} LinesConcat(a: seq<Line>, b: seq<Line>, indent: string)
    ensures LinesText(a + b, indent) == LinesText(a, indent) + LinesText(b, indent)
  {
    hide Repeat;
    if a == [] {
      assert a + b == b;
    } else {
      LinesConcat(a[1..], b, indent);
      assert (a + b)[0] == a[0] && (a + b)[1..] == a[1..] + b;
      Regroup(Repeat(indent, a[0].level) + a[0].text + "\n", LinesText(a[1..], indent), LinesText(b, indent));
    }
  }

  lemma OneLine(l: Line, indent: string)
    ensures LinesText([l], indent) == Repeat(indent, l.level) + l.text + "\n"
  {
    hide Repeat;
    assert [l][1..] == [];
  }

  lemma {:induction false} StmtLayout(s: Stmt, level: nat, indent: string)
    ensures StmtText(s, level, indent) == LinesText(StmtLines(s, level), indent)
    decreases s, 0
  {
    hide Repeat, CallText, LinesText, StmtsLines, StmtsText;
    match s
    case Block(name, id, body, _) =>
      var first := Line(level, name + (if id == "" then "" else " " + id) + " {");
      var last := Line(level, "}");
      StmtsLayout(body, level + 1, indent);
      LinesConcat([first] + StmtsLines(body, level + 1), [last], indent);
      LinesConcat([first], StmtsLines(body, level + 1), indent);
      OneLine(first, indent);
      OneLine(last, indent);
      BlockText(Repeat(indent, level), name, id, StmtsText(body, level + 1, indent));
    case CallStmt(c) => OneLine(Line(level, CallText(c)), indent);
  }

  lemma BlockText(ind: string, name: string, id: string, body: string)
    ensures ind + Header(name, id) + body + ind + "}\n" ==
            (ind + (name + (if id == "" then "" else " " + id) + " {") + "\n") + body + (ind + "}" + "\n")
  {
    assert " {\n" == " {" + "\n";
    assert "}\n" == "}" + "\n";
  }

  lemma {:induction false} StmtsLayout(ss: seq<Stmt>, level: nat, indent: string)
    ensures StmtsText(ss, level, indent) == LinesText(StmtsLines(ss, level), indent)
    decreases ss, 0
  {
    hide StmtText, StmtLines;
    if ss != [] {
      StmtLayout(ss[0], level, indent);
      StmtsLayout(ss[1..], level, indent);
      LinesConcat(StmtLines(ss[0], level), StmtsLines(ss[1..], level), indent);
    }
  }

  /** The lines of a file: an empty one between two blocks at the top, and nowhere else. */
  function TopLines(ss: seq<Stmt>): seq<Line> {
    if ss == [] then []
    else StmtLines(ss[0], 0)
         + (if |ss| > 1 && ss[0].Block? && ss[1].Block? then [Line(0, "")] else [])
         + TopLines(ss[1..])
  }

  lemma {:induction false} TopLayout(ss: seq<Stmt>, indent: string)
    ensures TopText(ss, indent) == LinesText(TopLines(ss), indent)
  {
    hide StmtText, StmtLines, LinesText;
    if ss == [] {
      assert LinesText([], indent) == "" by { NoLines(indent); }
    } else {
      var gap := if |ss| > 1 && ss[0].Block? && ss[1].Block? then [Line(0, "")] else [];
      StmtLayout(ss[0], 0, indent);
      TopLayout(ss[1..], indent);
      LinesConcat(StmtLines(ss[0], 0) + gap, TopLines(ss[1..]), indent);
      LinesConcat(StmtLines(ss[0], 0), gap, indent);
      OneLine(Line(0, ""), indent);
      NoLines(indent);
      assert Repeat(indent, 0) == "";
    }
  }

  lemma NoLines(indent: string)
    ensures LinesText([], indent) == ""
  {
  }
}
