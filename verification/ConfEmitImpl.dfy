/** The printer as the program runs it: loops that append to one shared builder (conf/emit.go). */
module ConfEmitImpl {
  import opened ConfNumber
  import opened ConfAst
  import opened ConfEmit

  lemma {:induction false} EscapeSnoc(s: string, c: char)
    ensures Escape(s + [c]) == Escape(s) + EscapeChar(c)
  {
    hide EscapeChar;
    if s == "" {
      assert s + [c] == [c];
      assert [c][1..] == "";
      assert Escape("") == "";
    } else {
      EscapeSnoc(s[1..], c);
      assert (s + [c])[1..] == s[1..] + [c];
    }
  }

  method EscapeString(s: string) returns (b: string)
    ensures b == Escape(s)
  {
    b := "";
    assert s[..0] == "";
    for k := 0 to |s|
      invariant b == Escape(s[..k])
    {
      EscapeSnoc(s[..k], s[k]);
      assert s[..k + 1] == s[..k] + [s[k]];
      b := b + EscapeChar(s[k]);
    }
    assert s[..|s|] == s;
  }

  /** What remains of an argument list whose first `k` values are written. */
  ghost function ArgsRest(vs: seq<Value>, k: nat): string
    requires k <= |vs|
  {
    (if 0 < k < |vs| then ", " else "") + ArgsText(vs[k..])
  }

  lemma ArgsRestStep(vs: seq<Value>, k: nat)
    requires k < |vs|
    ensures ArgsRest(vs, k) == (if k > 0 then ", " else "") + ValueText(vs[k]) + ArgsRest(vs, k + 1)
  {
    hide ValueText;
    assert vs[k..][1..] == vs[k + 1..];
    assert vs[k..][0] == vs[k];
    if k + 1 == |vs| {
      assert ArgsText(vs[k + 1..]) == "";
    }
  }

  /** What remains of the top level once `k` statements are written. */
  lemma TopStep(ss: seq<Stmt>, k: nat, indent: string)
    requires k < |ss|
    ensures TopText(ss[k..], indent) ==
            StmtText(ss[k], 0, indent)
            + (if k + 1 < |ss| && ss[k].Block? && ss[k + 1].Block? then "\n" else "")
            + TopText(ss[k + 1..], indent)
  {
    hide StmtText;
    assert ss[k..][1..] == ss[k + 1..];
    assert ss[k..][0] == ss[k];
    assert k + 1 < |ss| ==> ss[k..][1] == ss[k + 1];
  }

  class Emitter {
    var b: string

    constructor ()
      ensures b == ""
    {
      b := "";
    }

    method EmitValue(v: Value)
      modifies this
      ensures b == old(b) + ValueText(v)
      decreases v
    {
      match v
      case StringLit(s, _) =>
        var escaped := EscapeString(s);
        b := b + "\"" + escaped + "\"";
      case NumberLit(t, _, _) =>
        b := b + t;
      case BoolLit(flag, _) =>
        b := b + if flag then "true" else "false";
      case IdentLit(n, _) =>
        b := b + n;
      case CallValue(c) =>
        EmitCall(c);
    }

    method EmitCall(c: Call)
      modifies this
      ensures b == old(b) + CallText(c)
      decreases c
    {
      hide ArgsText, ValueText;
      b := b + c.name + "(";
      ghost var open := b;
      for k := 0 to |c.args|
        invariant open + ArgsRest(c.args, 0) == b + ArgsRest(c.args, k)
      {
        ArgsRestStep(c.args, k);
        if k > 0 {
          b := b + ", ";
        }
        EmitValue(c.args[k]);
      }
      ArgsRestEnds(c.args);
      assert b + "" == b;
      assert b == old(b) + c.name + "(" + ArgsText(c.args);
      b := b + ")";
    }

    method EmitStmt(s: Stmt, depth: nat, indent: string)
      modifies this
      ensures b == old(b) + StmtText(s, depth, indent)
      decreases s
    {
      hide CallText, Repeat, StmtsText, Header;
      var ind := RepeatIndent(indent, depth);
      match s
      case Block(name, id, body, _) =>
        b := b + ind + name;
        if id != "" {
          b := b + " " + id;
        }
        b := b + " {\n";
        ghost var open := b;
        HeaderBuilt(old(b) + ind, name, id);
        assert open == old(b) + ind + Header(name, id);
        assert body[0..] == body;
        for k := 0 to |body|
          invariant open + StmtsText(body, depth + 1, indent) == b + StmtsText(body[k..], depth + 1, indent)
        {
          StmtsStep(body, k, depth + 1, indent);
          EmitStmt(body[k], depth + 1, indent);
        }
        NoStmts(body, depth + 1, indent);
        assert b + "" == b;
        b := b + ind + "}\n";
        BlockBuilt(old(b), ind, Header(name, id), StmtsText(body, depth + 1, indent));
      case CallStmt(c) =>
        b := b + ind;
        EmitCall(c);
        b := b + "\n";
    }
  }

  lemma HeaderBuilt(b: string, name: string, id: string)
    ensures (if id != "" then b + name + " " + id else b + name) + " {\n" == b + Header(name, id)
  {
    assert b + name + " " + id == b + (name + (" " + id));
  }

  lemma BlockBuilt(b: string, ind: string, header: string, body: string)
    ensures b + ind + header + body + ind + "}\n" == b + (ind + header + body + ind + "}\n")
  {
  }

  lemma ArgsRestEnds(vs: seq<Value>)
    ensures ArgsRest(vs, |vs|) == ""
    ensures ArgsRest(vs, 0) == ArgsText(vs)
  {
    assert vs[0..] == vs;
  }

  lemma StmtsStep(ss: seq<Stmt>, k: nat, depth: nat, indent: string)
    requires k < |ss|
    ensures StmtsText(ss[k..], depth, indent) == StmtText(ss[k], depth, indent) + StmtsText(ss[k + 1..], depth, indent)
  {
    hide StmtText;
    assert ss[k..][1..] == ss[k + 1..];
  }

  lemma NoStmts(ss: seq<Stmt>, depth: nat, indent: string)
    ensures StmtsText(ss[|ss|..], depth, indent) == ""
  {
  }

  method RepeatIndent(indent: string, n: nat) returns (s: string)
    ensures s == Repeat(indent, n)
  {
    s := "";
    for k := 0 to n
      invariant s == Repeat(indent, k)
    {
      s := indent + s;
    }
  }

  /** The builder ends up holding the text of the tree. The final newline that the program would add
      is already there, since every statement and the version header end their line. */
  method Emit(f: File, option: string) returns (text: string)
    ensures text == EmitText(f, option)
    ensures text != "" ==> text[|text| - 1] == '\n'
  {
    hide TopText, StmtText, Itoa;
    var e := new Emitter();
    if f.version > 0 {
      e.b := "@version: " + Itoa(f.version) + "\n\n";
    }
    ghost var head := e.b;
    assert head == VersionText(f.version);
    var indent, ss := Indent(option), f.stmts;
    assert ss[0..] == ss;
    for k := 0 to |ss|
      invariant head + TopText(ss, indent) == e.b + TopText(ss[k..], indent)
      invariant e.b != "" ==> e.b[|e.b| - 1] == '\n'
    {
      TopStep(ss, k, indent);
      EndsLine(ss[k], 0, indent);
      e.EmitStmt(ss[k], 0, indent);
      if k + 1 < |ss| && ss[k].Block? && ss[k + 1].Block? {
        e.b := e.b + "\n";
      }
    }
    NoTop(ss, indent);
    assert e.b + "" == e.b;
    text := e.b;
  }

  lemma NoTop(ss: seq<Stmt>, indent: string)
    ensures TopText(ss[|ss|..], indent) == ""
  {
  }

  lemma EndsLine(s: Stmt, depth: nat, indent: string)
    ensures var t := StmtText(s, depth, indent); |t| > 0 && t[|t| - 1] == '\n'
  {
  }
}
