/** Single-quoting for the shell (hooks/runtime.go, bucket/command.go), against a reader of the quoting rules of
    sections 2.2.1 to 2.2.3 of the POSIX Shell Command Language. */
module ShellQuote {
  import opened Prelude

  // ---- The shell's side ----

  datatype Mode = Unquoted | Escaped | Single | Double | DoubleEscaped | Refused

  /** The words completed so far and the one being read, if any. */
  datatype Reader = Reader(mode: Mode, words: seq<string>, word: Option<string>)

  const Fresh: Reader := Reader(Unquoted, [], None)

  const Nul: char := 0 as char

  /** Operators, expansions, patterns and comments: a line that has one of them outside quotes is not a plain
      list of words, and the reader refuses it. */
  predicate Active(c: char) {
    c in "|&;<>()$`\n*?[#~"
  }

  function Word(r: Reader): string {
    if r.word.Some? then r.word.value else ""
  }

  function Push(r: Reader, mode: Mode, c: char): Reader {
    r.(mode := mode, word := Some(Word(r) + [c]))
  }

  function Break(r: Reader): Reader {
    match r.word
    case None => r
    case Some(w) => r.(words := r.words + [w], word := None)
  }

  function Refuse(r: Reader): Reader {
    r.(mode := Refused)
  }

  function Read(r: Reader, c: char): Reader {
    if c == Nul then Refuse(r)
    else
      match r.mode
      case Unquoted =>
        if c == ' ' || c == '\t' then Break(r)
        else if c == '\'' then r.(mode := Single, word := Some(Word(r)))
        else if c == '"' then r.(mode := Double, word := Some(Word(r)))
        else if c == '\\' then r.(mode := Escaped)
        else if Active(c) then Refuse(r)
        else Push(r, Unquoted, c)
      case Escaped => if c == '\n' then r.(mode := Unquoted) else Push(r, Unquoted, c)
      case Single => if c == '\'' then r.(mode := Unquoted) else Push(r, Single, c)
      case Double =>
        if c == '"' then r.(mode := Unquoted)
        else if c == '\\' then r.(mode := DoubleEscaped)
        else if c == '$' || c == '`' then Refuse(r)
        else Push(r, Double, c)
      case DoubleEscaped =>
        if c == '\n' then r.(mode := Double)
        else if c in "$`\"\\" then Push(r, Double, c)
        else Push(Push(r, Double, '\\'), Double, c)
      case Refused => r
  }

  function ReadAll(r: Reader, text: string): Reader
    decreases |text|
  {
    if text == "" then r else ReadAll(Read(r, text[0]), text[1..])
  }

  /** The words of a line, when it closes its quotes and is nothing but words. */
  function Words(line: string): Option<seq<string>> {
    var r := ReadAll(Fresh, line);
    if r.mode == Unquoted then Some(Break(r).words) else None
  }

  // ---- The writer's side ----

  const EscapedQuote: string := "'\"'\"'"

  function ReplaceQuotes(value: string): string {
    if value == "" then ""
    else (if value[0] == '\'' then EscapedQuote else [value[0]]) + ReplaceQuotes(value[1..])
  }

  /** shellQuote and shellSingleQuote. */
  function Quote(value: string): string {
    "'" + ReplaceQuotes(value) + "'"
  }

  function QuotedArgs(args: seq<string>): string {
    if args == [] then "" else " " + Quote(args[0]) + QuotedArgs(args[1..])
  }

  function Joined(parts: seq<string>, sep: string): string {
    if parts == [] then ""
    else if |parts| == 1 then parts[0]
    else parts[0] + sep + Joined(parts[1..], sep)
  }

  function Quotes(args: seq<string>): (r: seq<string>)
    ensures |r| == |args| && forall i :: 0 <= i < |r| ==> r[i] == Quote(args[i])
  {
    seq(|args|, i requires 0 <= i < |args| => Quote(args[i]))
  }

  method AppendScriptArgs(base: string, scriptArgs: seq<string>) returns (line: string)
    ensures line == base + QuotedArgs(scriptArgs)
  {
    if |scriptArgs| == 0 {
      return base;
    }
    var parts := [base];
    for k := 0 to |scriptArgs|
      invariant parts == [base] + Quotes(scriptArgs[..k])
    {
      parts := parts + [Quote(scriptArgs[k])];
    }
    assert scriptArgs[..|scriptArgs|] == scriptArgs;
    JoinQuotes(base, scriptArgs);
    return Joined(parts, " ");
  }

  lemma {:induction false} JoinQuotes(base: string, args: seq<string>)
    ensures Joined([base] + Quotes(args), " ") == base + QuotedArgs(args)
    decreases |args|
  {
    hide Quote;
    var parts := [base] + Quotes(args);
    if args != [] {
      JoinQuotes(Quote(args[0]), args[1..]);
      assert parts[1..] == [Quote(args[0])] + Quotes(args[1..]);
    }
  }

  // ---- What is read back ----

  lemma {:induction false} ReadConcat(r: Reader, a: string, b: string)
    ensures ReadAll(r, a + b) == ReadAll(ReadAll(r, a), b)
    decreases |a|
  {
    hide Read;
    if a == "" {
      assert a + b == b;
    } else {
      assert (a + b)[1..] == a[1..] + b;
      ReadConcat(Read(r, a[0]), a[1..], b);
    }
  }

  lemma {:induction false} RefusedStays(r: Reader, text: string)
    requires r.mode == Refused
    ensures ReadAll(r, text).mode == Refused
    decreases |text|
  {
    if text != "" {
      RefusedStays(Read(r, text[0]), text[1..]);
    }
  }

  ghost predicate NulFree(s: string) {
    forall i :: 0 <= i < |s| ==> s[i] != Nul
  }

  lemma ReadQuoteChar(r: Reader)
    requires r.mode == Single && r.word.Some?
    ensures ReadAll(r, EscapedQuote) == r.(word := Some(r.word.value + "'"))
  {
    hide ReadAll;
    var out := r.(mode := Unquoted);
    var more := r.(word := Some(r.word.value + "'"));
    ReadConcat(r, "'", "\"'\"'");
    ReadOne(r, '\'');
    ReadConcat(out, "\"", "'\"'");
    ReadOne(out, '"');
    ReadConcat(out.(mode := Double), "'", "\"'");
    ReadOne(out.(mode := Double), '\'');
    ReadConcat(more.(mode := Double), "\"", "'");
    ReadOne(more.(mode := Double), '"');
    ReadOne(more.(mode := Unquoted), '\'');
    assert "'" + "\"'\"'" == EscapedQuote;
    assert "\"" + "'\"'" == "\"'\"'";
    assert "'" + "\"'" == "'\"'";
    assert "\"" + "'" == "\"'";
  }

  lemma ReadOne(r: Reader, c: char)
    ensures ReadAll(r, [c]) == Read(r, c)
  {
    assert [c][1..] == "";
  }

  /** Inside single quotes the replaced text reads as the value itself. */
  lemma {:induction false} ReadInside(r: Reader, value: string)
    requires r.mode == Single && r.word.Some? && NulFree(value)
    ensures ReadAll(r, ReplaceQuotes(value)) == r.(word := Some(r.word.value + value))
    decreases |value|
  {
    if value == "" {
      assert r.word.value + value == r.word.value;
    } else {
      var c, rest := value[0], value[1..];
      var head := if c == '\'' then EscapedQuote else [c];
      ReadConcat(r, head, ReplaceQuotes(rest));
      if c == '\'' {
        ReadQuoteChar(r);
      } else {
        ReadOne(r, c);
      }
      ReadInside(r.(word := Some(r.word.value + [c])), rest);
      assert r.word.value + [c] + rest == r.word.value + value;
    }
  }

  /** Wherever quoting is off, a quoted value joins the current word literally. */
  lemma ReadQuoted(r: Reader, value: string)
    requires r.mode == Unquoted && NulFree(value)
    ensures ReadAll(r, Quote(value)) == r.(word := Some(Word(r) + value))
  {
    hide ReplaceQuotes, ReadAll;
    var inside := r.(mode := Single, word := Some(Word(r)));
    ReadConcat(r, "'", ReplaceQuotes(value) + "'");
    assert Quote(value) == "'" + (ReplaceQuotes(value) + "'");
    ReadOne(r, '\'');
    ReadConcat(inside, ReplaceQuotes(value), "'");
    ReadInside(inside, value);
    ReadOne(inside.(word := Some(Word(r) + value)), '\'');
  }

  lemma {:induction false} ReadArgs(r: Reader, args: seq<string>)
    requires r.mode == Unquoted && forall a :: a in args ==> NulFree(a)
    ensures var t := ReadAll(r, QuotedArgs(args)); t.mode == Unquoted && Break(t).words == Break(r).words + args
    decreases |args|
  {
    hide Quote, ReadAll;
    if args == [] {
      ReadNothing(r);
    } else {
      var rest := QuotedArgs(args[1..]);
      var gap := Break(r);
      var next := gap.(word := Some(args[0]));
      assert QuotedArgs(args) == " " + (Quote(args[0]) + rest);
      ReadConcat(r, " ", Quote(args[0]) + rest);
      ReadOne(r, ' ');
      ReadConcat(gap, Quote(args[0]), rest);
      ReadQuoted(gap, args[0]);
      assert Word(gap) + args[0] == args[0];
      ReadArgs(next, args[1..]);
      assert gap.words + [args[0]] + args[1..] == gap.words + args;
    }
  }

  lemma ReadNothing(r: Reader)
    ensures ReadAll(r, "") == r
  {
  }

  /** The line with arguments appended reads as the words of the base followed by exactly the arguments. */
  lemma AppendedWords(base: string, args: seq<string>)
    requires Words(base).Some? && forall a :: a in args ==> NulFree(a)
    ensures Words(base + QuotedArgs(args)) == Some(Words(base).value + args)
  {
    hide ReadAll, QuotedArgs;
    ReadConcat(Fresh, base, QuotedArgs(args));
    ReadArgs(ReadAll(Fresh, base), args);
  }

  lemma {:induction false} NulRefused(r: Reader, value: string)
    requires !NulFree(value)
    ensures ReadAll(r, ReplaceQuotes(value)).mode == Refused
    decreases |value|
  {
    var head := if value[0] == '\'' then EscapedQuote else [value[0]];
    ReadConcat(r, head, ReplaceQuotes(value[1..]));
    if value[0] == Nul {
      ReadOne(r, Nul);
      RefusedStays(Read(r, Nul), ReplaceQuotes(value[1..]));
    } else {
      assert exists i :: 0 <= i < |value[1..]| && value[1..][i] == Nul by {
        var i :| 0 <= i < |value| && value[i] == Nul;
        assert value[1..][i - 1] == Nul;
      }
      NulRefused(ReadAll(r, head), value[1..]);
    }
  }

  lemma LastWord(line: string, words: seq<string>, w: string)
    requires ReadAll(Fresh, line) == Reader(Unquoted, words, Some(w))
    ensures Words(line) == Some(words + [w])
  {
  }

  /** A quoted value is exactly one word, itself, for the NUL-free values and for no others. */
  lemma QuoteIsOneWord(value: string)
    ensures Words(Quote(value)) == Some([value]) <==> NulFree(value)
  {
    hide ReadAll, ReplaceQuotes;
    if NulFree(value) {
      ReadQuoted(Fresh, value);
      assert Word(Fresh) + value == value;
      LastWord(Quote(value), [], value);
      assert [] + [value] == [value];
    } else {
      assert Quote(value) == "'" + (ReplaceQuotes(value) + "'");
      ReadConcat(Fresh, "'", ReplaceQuotes(value) + "'");
      var r := ReadAll(Fresh, "'");
      ReadConcat(r, ReplaceQuotes(value), "'");
      NulRefused(r, value);
      RefusedStays(ReadAll(r, ReplaceQuotes(value)), "'");
    }
  }

  // ---- Exported variables ----

  predicate NameStart(c: char) {
    c == '_' || 'a' <= c <= 'z' || 'A' <= c <= 'Z'
  }

  /** A shell variable name. */
  ghost predicate IsName(name: string) {
    name != "" && NameStart(name[0]) && forall i :: 0 <= i < |name| ==> NameStart(name[i]) || '0' <= name[i] <= '9'
  }

  method IsValidEnvKey(name: string) returns (ok: bool)
    ensures ok <==> IsName(name)
  {
    if name == "" {
      return false;
    }
    for i := 0 to |name|
      invariant i > 0 ==> NameStart(name[0])
      invariant forall k :: 0 <= k < i ==> NameStart(name[k]) || '0' <= name[k] <= '9'
    {
      var r := name[i];
      if r == '_' || 'a' <= r <= 'z' || 'A' <= r <= 'Z' || ('0' <= r <= '9' && i > 0) {
        continue;
      }
      return false;
    }
    return true;
  }

  function ExportLine(key: string, value: string): string {
    "export " + key + "=" + Quote(value)
  }

  predicate Plain(c: char) {
    NameStart(c) || '0' <= c <= '9' || c == '='
  }

  lemma {:induction false} ReadPlain(r: Reader, text: string)
    requires r.mode == Unquoted && r.word.Some? && forall i :: 0 <= i < |text| ==> Plain(text[i])
    ensures ReadAll(r, text) == r.(word := Some(r.word.value + text))
    decreases |text|
  {
    if text == "" {
      assert r.word.value + text == r.word.value;
    } else {
      assert !Active(text[0]);
      ReadPlain(Push(r, Unquoted, text[0]), text[1..]);
      assert r.word.value + [text[0]] + text[1..] == r.word.value + text;
    }
  }

  const Exporting: Reader := Reader(Unquoted, ["export"], None)

  lemma ReadExport()
    ensures ReadAll(Fresh, "export ") == Exporting
  {
    hide ReadAll;
    var e := Fresh.(word := Some("e"));
    ReadConcat(Fresh, "e", "xport ");
    ReadOne(Fresh, 'e');
    assert Word(Fresh) + "e" == "e";
    ReadConcat(e, "xport", " ");
    ReadPlain(e, "xport");
    assert "e" + "xport" == "export";
    var done := Fresh.(word := Some("export"));
    ReadOne(done, ' ');
    assert [] + ["export"] == ["export"];
    assert "e" + "xport " == "export " && "xport" + " " == "xport ";
  }

  lemma ReadAssignment(key: string)
    requires IsName(key)
    ensures ReadAll(Exporting, key + "=") == Exporting.(word := Some(key + "="))
  {
    hide ReadAll;
    var k := Exporting.(word := Some([key[0]]));
    var rest := key[1..] + "=";
    assert key + "=" == [key[0]] + rest;
    ReadConcat(Exporting, [key[0]], rest);
    ReadOne(Exporting, key[0]);
    assert !Active(key[0]);
    assert Word(Exporting) + [key[0]] == [key[0]];
    ReadPlain(k, rest);
  }

  /** `export` with one operand, whatever the value contains. */
  lemma ExportReads(key: string, value: string)
    requires IsName(key) && NulFree(value)
    ensures Words(ExportLine(key, value)) == Some(["export", key + "=" + value])
  {
    hide ReadAll, Quote, Read, IsName;
    var named := Exporting.(word := Some(key + "="));
    assert ExportLine(key, value) == "export " + ((key + "=") + Quote(value));
    ReadConcat(Fresh, "export ", (key + "=") + Quote(value));
    ReadExport();
    ReadConcat(Exporting, key + "=", Quote(value));
    ReadAssignment(key);
    ReadQuoted(named, value);
    LastWord(ExportLine(key, value), ["export"], key + "=" + value);
    assert ["export"] + [key + "=" + value] == ["export", key + "=" + value];
  }
}
