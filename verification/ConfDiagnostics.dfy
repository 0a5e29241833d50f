/** Where the diagnostics of the scanner point (conf/lexer.go). */
module ConfDiagnostics {
  import opened Prelude
  import opened ConfText
  import opened ConfNumber
  import opened ConfAst
  import opened ConfLexer

  /** The character after the last backslash stands for nothing. */
  ghost predicate BadEscape(s: string, at: nat) {
    2 <= at <= |s| && s[at - 2] == '\\' && s[at - 1] !in {'"', '\\', '/', 'n', 't', 'r'}
  }

  /** The offset of a diagnostic in the text of its token: what is wrong inside a string is pointed at, everything else
      is reported at the start of the token. */
  ghost predicate Explains(s: string, problem: Problem, at: nat) {
    match problem
    case NulInString => 1 <= at < |s| && s[0] == '"' && s[at] == '\0'
    case UnterminatedEscape => 2 <= at == |s| && s[0] == '"' && s[at - 1] == '\\'
    case InvalidEscape => s != "" && s[0] == '"' && BadEscape(s, at)
    case _ => at == 0
  }

  lemma {:induction false} StringExplained(s: string, text: string, off: nat)
    requires 1 <= off <= |s| && s[0] == '"' && ScanStringRest(s[off..], text, off).Bad?
    ensures var r := ScanStringRest(s[off..], text, off); Explains(s, r.problem, r.at)
    decreases |s| - off
  {
    hide ByteLen;
    var t := s[off..];
    if t != "" && t[0] == '\\' && |t| > 1 && Unescape(t[1]).Some? {
      assert t[2..] == s[off + 2..];
      if ScanStringRest(t[2..], text + [Unescape(t[1]).value], off + 2).Bad? {
        StringExplained(s, text + [Unescape(t[1]).value], off + 2);
      }
    } else if t != "" && t[0] != '\\' && t[0] != '"' {
      assert t[1..] == s[off + 1..];
      if ScanStringRest(t[1..], text + [t[0]], off + 1).Bad? {
        StringExplained(s, text + [t[0]], off + 1);
      }
    }
  }

  lemma TokenExplained(s: string)
    requires s != "" && ScanToken(s).Bad?
    ensures Explains(s, ScanToken(s).problem, ScanToken(s).at)
  {
    hide ScanStringRest, ByteLen, DigitLen, IdentLen;
    if s[0] == '"' && ScanStringRest(s[1..], "", 1).Bad? {
      StringExplained(s, "", 1);
    }
  }

  /** The position a diagnostic gives for that offset: of the character after the backslash where an escape is bad, and
      of the offset itself everywhere else. For a line break after a backslash it is the next line, and column zero. */
  ghost predicate PointsTo(src: string, start: nat, e: ConfError, at: nat) {
    && start + at <= |src| && Explains(src[start..], e.problem, at)
    && (e.problem != InvalidEscape ==> e.pos == PosAt(src, start + at))
    && (e.problem == InvalidEscape && at >= 1 ==>
          e.pos == if src[start + at - 1] == '\n' then Pos(PosAt(src, start + at - 1).line + 1, 0)
                   else PosAt(src, start + at - 1))
  }

  /** Every diagnostic of the scanner: at the start of the token that does not scan, or, inside a string, at the NUL,
      at the end of the text after a backslash, or at the character after the backslash. */
  lemma DiagnosticPoints(src: string, i: nat) returns (at: nat)
    requires i <= |src| && Next(src, i).Err?
    ensures PointsTo(src, i + SkipLen(src[i..]), Next(src, i).error, at)
  {
    hide ScanToken, SkipLen, PosAt;
    var start := i + SkipLen(src[i..]);
    var s := src[start..];
    TokenExplained(s);
    at := ScanToken(s).at;
    if ScanToken(s).problem == InvalidEscape {
      EscapePlace(s, at);
      assert src[start + at - 1] == s[at - 1];
      PosStep(src, start + at - 1);
    }
  }

  lemma ColumnsFromOne(consumed: string)
    ensures PosAfter(consumed).column >= 1 && PosAfter(consumed).line >= 1
  {
  }

  /** Columns count from one, except at a line break after a backslash. */
  lemma ColumnZeroExactly(src: string, i: nat)
    requires i <= |src| && Next(src, i).Err?
    ensures var e := Next(src, i).error;
            e.pos.column < 1 <==>
            e.problem == InvalidEscape
            && exists k :: i < k < |src| && src[k - 1] == '\\' && src[k] == '\n'
                           && e.pos == Pos(PosAt(src, k).line + 1, 0)
  {
    hide SkipLen, Next, PosAfter;
    var e, start := Next(src, i).error, i + SkipLen(src[i..]);
    var at := DiagnosticPoints(src, i);
    ColumnsFromOne(src[..start + at]);
    if e.problem == InvalidEscape {
      EscapePlace(src[start..], at);
      var k := start + at - 1;
      ColumnsFromOne(src[..k]);
      assert src[k] == src[start..][at - 1] && src[k - 1] == src[start..][at - 2];
    }
  }

  lemma EscapePlace(s: string, at: nat)
    requires Explains(s, InvalidEscape, at)
    ensures 2 <= at <= |s| && s[at - 2] == '\\'
  {
  }

  /** Such a source: a quote, a backslash and a line break. */
  lemma ColumnZero()
    ensures Next("\"\\\n", 0) == Err(ConfError(InvalidEscape, Pos(2, 0)))
  {
    var s := "\"\\\n";
    assert s[0..] == s;
    assert SkipLen(s) == 0;
    assert s[1..] == "\\\n";
    assert ScanStringRest(s[1..], "", 1) == Bad(InvalidEscape, 3);
    assert s[..3] == s;
    assert s[1..][1..] == "\n" && s[1..][1..][1..] == "";
    assert Newlines("") == 0 && Newlines("\n") == 1;
    assert Newlines(s[1..]) == 1;
    assert PosAfter(s) == Pos(2, 1);
  }
}
