/** Which kive.conf files are accepted, exactly, and with which settings (bucket/kive_conf_block.go,
    conf/helpers.go). */
module KiveLanguage {
  import opened Prelude
  import opened ConfNumber
  import opened ConfAst
  import opened Strings
  import opened KiveConfig
  import ConfParser
  import KiveRoundTrip

  // ---- One argument list ----

  /** A string or a bare identifier, and its text. */
  predicate IsWord(v: Value, s: string) {
    (v.StringLit? && v.value == s) || (v.IdentLit? && v.name == s)
  }

  /** An integer literal from -1 upwards, or a string that reads as any integer once trimmed. */
  predicate IsInteger(v: Value, n: int) {
    || (v.NumberLit? && v.number == Integer(n) && n >= -1)
    || (v.StringLit? && Atoi(TrimSpace(v.value)) == Some(n))
  }

  /** The arguments give the setting this value. */
  ghost predicate Gives(k: Setting, args: seq<Value>, d: Datum) {
    match k
    case SshPort | RunCount | RunDays | BackupCount | HealthWait | HealthPoll | MaxSyncs | CertsTtl | CertsBuffer =>
      d.Num? && |args| == 1 && IsInteger(args[0], d.n)
    case UseSudo | Promotion | Iptables => |args| == 1 && args[0].BoolLit? && d == Flag(args[0].flag)
    case Observe => |args| == 1 && args[0].BoolLit? && d == Maybe(Some(args[0].flag))
    case SignerTrust =>
      d.List? && |d.items| == |args| && forall i :: 0 <= i < |args| ==> IsWord(args[i], d.items[i])
    case Ports =>
      && |args| == 2 && args[0].NumberLit? && args[1].NumberLit? && args[0].number.Integer? && args[1].number.Integer?
      && args[0].number.value >= -1 && args[1].number.value >= -1
      && d == Text(Itoa(args[0].number.value) + "," + Itoa(args[1].number.value))
    case Timezone => |args| == 1 && exists s :: IsWord(args[0], s) && d == Text(TrimSpace(s))
    case Profile =>
      |args| == 1 && exists s :: IsWord(args[0], s) && d == Text(TrimSpace(s)) && (d.text == "" || ProfileToken(d.text))
    case _ => |args| == 1 && d.Text? && IsWord(args[0], d.text)
  }

  lemma {:induction false} WordList(vs: seq<Value>, items: seq<string>)
    ensures AsStrings(vs) == Ok(items) <==> |items| == |vs| && forall i :: 0 <= i < |vs| ==> IsWord(vs[i], items[i])
    decreases |vs|
  {
    if vs != [] {
      if items != [] {
        WordList(vs[1..], items[1..]);
        assert items == [items[0]] + items[1..];
        if forall i :: 0 <= i < |vs| ==> i < |items| && IsWord(vs[i], items[i]) {
          forall i | 0 <= i < |vs| - 1
            ensures i + 1 < |items| && IsWord(vs[1..][i], items[1..][i])
          {
            assert IsWord(vs[i + 1], items[i + 1]);
          }
        }
        if |items| == |vs| && IsWord(vs[0], items[0])
           && forall i :: 0 <= i < |vs| - 1 ==> IsWord(vs[1..][i], items[1..][i]) {
          forall i | 0 <= i < |vs|
            ensures IsWord(vs[i], items[i])
          {
            if i > 0 {
              assert IsWord(vs[1..][i - 1], items[1..][i - 1]);
            }
          }
        }
      }
    }
  }

  lemma WordArg(c: Call, s: string)
    ensures SingleString(c) == Ok(s) <==> |c.args| == 1 && IsWord(c.args[0], s)
  {
  }

  lemma IntegerArg(c: Call, n: int)
    ensures SingleInt(c) == Ok(n) <==> |c.args| == 1 && IsInteger(c.args[0], n)
  {
    hide Atoi, TrimSpace;
  }

  lemma FlagArg(c: Call, b: bool)
    ensures SingleBool(c) == Ok(b) <==> |c.args| == 1 && c.args[0].BoolLit? && c.args[0].flag == b
  {
  }

  lemma RangeArg(c: Call, s: string)
    ensures PortRangeArg(c) == Ok(s) <==> Gives(Ports, c.args, Text(s))
  {
    hide Itoa;
  }

  lemma TrimmedArg(c: Call, d: Datum)
    ensures ReadArg(Timezone, c) == Ok(d) <==> Gives(Timezone, c.args, d)
    ensures ReadArg(Profile, c) == Ok(d) <==> Gives(Profile, c.args, d)
  {
    hide TrimSpace, ProfileToken, SingleString;
    if |c.args| == 1 && (c.args[0].StringLit? || c.args[0].IdentLit?) {
      var s := if c.args[0].StringLit? then c.args[0].value else c.args[0].name;
      WordArg(c, s);
      assert IsWord(c.args[0], s);
    } else {
      NoWordArg(c);
    }
  }

  lemma NoWordArg(c: Call)
    requires !(|c.args| == 1 && (c.args[0].StringLit? || c.args[0].IdentLit?))
    ensures SingleString(c).Err?
  {
  }

  predicate Numeric(k: Setting) {
    k in {SshPort, RunCount, RunDays, BackupCount, HealthWait, HealthPoll, MaxSyncs, CertsTtl, CertsBuffer}
  }

  lemma NumericArg(k: Setting, c: Call, d: Datum)
    requires Numeric(k)
    ensures ReadArg(k, c) == Ok(d) <==> Gives(k, c.args, d)
  {
    hide SingleInt, IsInteger;
    assert ReadArg(k, c) == Wrap(SingleInt(c), n => Num(n));
    if d.Num? {
      IntegerArg(c, d.n);
    }
  }

  lemma PlainArg(k: Setting, c: Call, d: Datum)
    requires KiveRoundTrip.PlainText(k)
    ensures ReadArg(k, c) == Ok(d) <==> Gives(k, c.args, d)
  {
    hide SingleString, IsWord;
    assert ReadArg(k, c) == Wrap(SingleString(c), s => Text(s));
    if d.Text? {
      WordArg(c, d.text);
    }
  }

  /** What every setting makes of its arguments. */
  lemma GivesExactly(k: Setting, c: Call, d: Datum)
    ensures ReadArg(k, c) == Ok(d) <==> Gives(k, c.args, d)
  {
    if Numeric(k) {
      NumericArg(k, c, d);
    } else if KiveRoundTrip.PlainText(k) {
      PlainArg(k, c, d);
    } else if k == Timezone || k == Profile {
      TrimmedArg(c, d);
    } else {
      OtherArg(k, c, d);
    }
  }

  lemma FlagSetting(k: Setting, c: Call, d: Datum)
    requires k in {UseSudo, Promotion, Iptables, Observe}
    ensures ReadArg(k, c) == Ok(d) <==> Gives(k, c.args, d)
  {
    hide SingleBool;
    match SingleBool(c)
    case Ok(b) =>
      FlagArg(c, b);
      if k == Observe {
        assert ReadArg(k, c) == Ok(Maybe(Some(b)));
      } else {
        assert ReadArg(k, c) == Ok(Flag(b));
      }
    case Err(e) =>
      assert ReadArg(k, c) == Err(e);
      FlagArg(c, true);
      FlagArg(c, false);
  }

  lemma OtherArg(k: Setting, c: Call, d: Datum)
    requires k in {UseSudo, Promotion, Iptables, Observe, SignerTrust, Ports}
    ensures ReadArg(k, c) == Ok(d) <==> Gives(k, c.args, d)
  {
    if k == SignerTrust {
      hide AsStrings, IsWord;
      if d.List? {
        WordList(c.args, d.items);
      }
    } else if k == Ports {
      hide PortRangeArg, Gives;
      if d.Text? {
        RangeArg(c, d.text);
      } else {
        assert !Gives(Ports, c.args, d) by { GivesNoRange(c.args, d); }
      }
    } else {
      FlagSetting(k, c, d);
    }
  }

  lemma GivesNoRange(args: seq<Value>, d: Datum)
    requires !d.Text?
    ensures !Gives(Ports, args, d)
  {
  }

  predicate LetterOrDigit(c: char) {
    'a' <= c <= 'z' || 'A' <= c <= 'Z' || '0' <= c <= '9'
  }

  /** A profile is accepted exactly when, trimmed, it is empty or names a file in place: it starts with an ASCII letter
      or digit, goes on with these, dots, underscores and dashes, and never has two dots in a row. */
  lemma ProfileExactly(raw: string)
    ensures var t := TrimSpace(raw);
            SanitizeProfile(raw) ==
            if t == "" || (&& LetterOrDigit(t[0])
                           && (forall i :: 0 <= i < |t| ==>
                                 LetterOrDigit(t[i]) || t[i] == '.' || t[i] == '_' || t[i] == '-')
                           && forall i :: 0 <= i < |t| - 1 ==> t[i] != '.' || t[i + 1] != '.')
            then Some(t) else None
  {
    hide TrimSpace;
    var t := TrimSpace(raw);
    assert forall c :: c in "._-" <==> c == '.' || c == '_' || c == '-';
  }

  // ---- The calls of a file ----

  /** A call and the block it stands in, or "" at the top. */
  datatype Line = Line(block: string, call: Call)

  function BodyLines(block: string, body: seq<Stmt>): seq<Line> {
    if body == [] then []
    else (if body[0].CallStmt? then [Line(block, body[0].call)] else []) + BodyLines(block, body[1..])
  }

  function LinesOf(s: Stmt): seq<Line> {
    match s
    case Block(name, _, body, _) => BodyLines(name, body)
    case CallStmt(c) => [Line("", c)]
  }

  function Lines(ss: seq<Stmt>): seq<Line> {
    if ss == [] then [] else LinesOf(ss[0]) + Lines(ss[1..])
  }

  predicate Sets(l: Line, k: Setting) {
    l.block == BlockOf(k) && l.call.name == NameOf(k)
  }

  /** No flat setting of older files, or a known block without an identifier that holds calls only. */
  predicate WellFormed(s: Stmt) {
    match s
    case Block(name, id, body, _) => id == "" && KnownBlock(name) && forall t :: t in body ==> t.CallStmt?
    case CallStmt(c) => !Legacy(c.name)
  }

  /** No block is there twice. */
  ghost predicate BlocksOnce(ss: seq<Stmt>) {
    forall i, j :: 0 <= i < j < |ss| && ss[i].Block? && ss[j].Block? ==> ss[i].name != ss[j].name
  }

  ghost predicate Known(l: Line) {
    exists k, d :: Sets(l, k) && Gives(k, l.call.args, d)
  }

  /** Every call sets something to a value it can have, and nothing is set twice. */
  ghost predicate LinesOk(ls: seq<Line>) {
    && (forall i :: 0 <= i < |ls| ==> Known(ls[i]))
    && forall i, j, k :: 0 <= i < j < |ls| && Sets(ls[i], k) ==> !Sets(ls[j], k)
  }

  ghost predicate IsSet(ls: seq<Line>, k: Setting) {
    exists i :: 0 <= i < |ls| && Sets(ls[i], k)
  }

  /** Some call gives the setting this value. */
  ghost predicate SetTo(ls: seq<Line>, k: Setting, d: Datum) {
    exists i :: 0 <= i < |ls| && Sets(ls[i], k) && Gives(k, ls[i].call.args, d)
  }

  // ---- Names ----

  lemma NamedSsh(name: string, k: Setting)
    requires SshSetting(name) == Some(k)
    ensures BlockOf(k) == "ssh" && NameOf(k) == name
  {
  }

  lemma NamedLogConfig(name: string, k: Setting)
    requires LogConfigSetting(name) == Some(k)
    ensures BlockOf(k) == "log_config" && NameOf(k) == name
  {
  }

  lemma NamedBackup(name: string, k: Setting)
    requires BackupSetting(name) == Some(k)
    ensures BlockOf(k) == "backup" && NameOf(k) == name
  {
  }

  lemma NamedHealth(name: string, k: Setting)
    requires HealthSetting(name) == Some(k)
    ensures BlockOf(k) == "health" && NameOf(k) == name
  {
  }

  lemma NamedDeploy(name: string, k: Setting)
    requires DeploySetting(name) == Some(k)
    ensures BlockOf(k) == "deploy" && NameOf(k) == name
  {
  }

  lemma NamedInterpreters(name: string, k: Setting)
    requires InterpretersSetting(name) == Some(k)
    ensures BlockOf(k) == "interpreters" && NameOf(k) == name
  {
  }

  lemma NamedJobSigner(name: string, k: Setting)
    requires JobSignerSetting(name) == Some(k)
    ensures BlockOf(k) == "job_signer" && NameOf(k) == name
  {
  }

  lemma NamedFeatures(name: string, k: Setting)
    requires FeaturesSetting(name) == Some(k)
    ensures BlockOf(k) == "features" && NameOf(k) == name
  {
  }

  lemma NamedTop(name: string, k: Setting)
    requires TopSetting(name) == Some(k)
    ensures BlockOf(k) == "" && NameOf(k) == name
  {
    hide NameOf, BlockOf;
    AtTop();
  }

  lemma AtTop()
    ensures BlockOf(Ports) == "" && NameOf(Ports) == "port_range"
    ensures BlockOf(CertsTtl) == "" && NameOf(CertsTtl) == "certs_ttl"
    ensures BlockOf(CertsBuffer) == "" && NameOf(CertsBuffer) == "certs_renewal_buffer"
    ensures BlockOf(Iptables) == "" && NameOf(Iptables) == "iptables"
    ensures BlockOf(Profile) == "" && NameOf(Profile) == "jobs_profile"
    ensures BlockOf(Timezone) == "" && NameOf(Timezone) == "timezone"
  {
  }

  lemma NamedIs(b: string, n: string, k: Setting)
    requires Named(b, n) == Some(k)
    ensures BlockOf(k) == b && NameOf(k) == n
  {
    hide SshSetting, LogConfigSetting, BackupSetting, HealthSetting, DeploySetting, InterpretersSetting,
         JobSignerSetting, FeaturesSetting, TopSetting, BlockOf, NameOf;
    if b == "ssh" {
      NamedSsh(n, k);
    } else if b == "log_config" {
      NamedLogConfig(n, k);
    } else if b == "backup" {
      NamedBackup(n, k);
    } else if b == "health" {
      NamedHealth(n, k);
    } else if b == "deploy" {
      NamedDeploy(n, k);
    } else if b == "interpreters" {
      NamedInterpreters(n, k);
    } else if b == "job_signer" {
      NamedJobSigner(n, k);
    } else if b == "features" {
      NamedFeatures(n, k);
    } else {
      NamedTop(n, k);
    }
  }

  lemma NamedExactly(l: Line, k: Setting)
    ensures Named(l.block, l.call.name) == Some(k) <==> Sets(l, k)
  {
    hide Named, BlockOf, NameOf;
    KiveRoundTrip.NamedSetting(k);
    if Named(l.block, l.call.name) == Some(k) {
      NamedIs(l.block, l.call.name, k);
    }
  }

  // ---- Folding the calls ----

  function LowerLines(ls: seq<Line>, s: Lowered): Result<Lowered, KiveError> {
    if ls == [] then Ok(s)
    else
      var t :- LowerCall(ls[0].block, ls[0].call, s);
      LowerLines(ls[1..], t)
  }

  lemma {:induction false} LinesSnoc(ls: seq<Line>, l: Line, s: Lowered)
    ensures LowerLines(ls + [l], s) ==
            match LowerLines(ls, s) { case Ok(t) => LowerCall(l.block, l.call, t) case Err(e) => Err(e) }
  {
    hide LowerCall;
    if ls == [] {
      assert ls + [l] == [l];
      assert [l][1..] == [];
    } else {
      assert (ls + [l])[0] == ls[0] && (ls + [l])[1..] == ls[1..] + [l];
      var t := LowerCall(ls[0].block, ls[0].call, s);
      if t.Ok? {
        LinesSnoc(ls[1..], l, t.value);
      }
    }
  }

  /** What has been read so far of a setting. */
  ghost predicate ReflectsOn(ls: seq<Line>, t: Lowered, k: Setting) {
    && (k in t.present <==> IsSet(ls, k))
    && if k in t.present then SetTo(ls, k, t.conf[k]) else t.conf[k] == ZeroOf(k)
  }

  ghost predicate Reflects(ls: seq<Line>, t: Lowered) {
    forall k :: ReflectsOn(ls, t, k)
  }

  function Added(t: Lowered, k: Setting, d: Datum): Lowered
    requires Fits(k, d)
  {
    t.(conf := Put(t.conf, k, d), present := t.present + {k})
  }

  lemma GivesFits(k: Setting, args: seq<Value>, d: Datum)
    requires Gives(k, args, d)
    ensures Fits(k, d)
  {
    hide IsWord, IsInteger, ProfileToken, TrimSpace, Itoa;
  }

  /** A call is taken exactly when it is known and sets something not set yet. */
  lemma OneLine(l: Line, t: Lowered) returns (k: Setting, d: Datum)
    ensures LowerCall(l.block, l.call, t).Ok? <==> Known(l) && forall j :: Sets(l, j) ==> j !in t.present
    ensures LowerCall(l.block, l.call, t).Ok? ==>
              && Sets(l, k) && Gives(k, l.call.args, d) && Fits(k, d)
              && LowerCall(l.block, l.call, t) == Ok(Added(t, k, d))
              && forall j :: Sets(l, j) ==> j == k
  {
    hide Sets, Gives, Named, ReadArg;
    k, d := UseSudo, Flag(false);
    forall j
      ensures Named(l.block, l.call.name) == Some(j) <==> Sets(l, j)
    {
      NamedExactly(l, j);
    }
    if Named(l.block, l.call.name).Some? {
      k := Named(l.block, l.call.name).value;
      var r := ReadArg(k, l.call);
      forall e
        ensures r == Ok(e) <==> Gives(k, l.call.args, e)
      {
        GivesExactly(k, l.call, e);
      }
      if r.Ok? {
        d := r.value;
        GivesFits(k, l.call.args, d);
      }
    }
  }

  lemma {:induction false} LinesExactly(ls: seq<Line>)
    ensures LowerLines(ls, Nothing).Ok? <==> LinesOk(ls)
    ensures LowerLines(ls, Nothing).Ok? ==> Reflects(ls, LowerLines(ls, Nothing).value)
    decreases |ls|
  {
    hide LowerCall, Sets, Gives, LinesOk, Reflects, Known, LowerLines;
    if ls == [] {
      NoLines();
    } else {
      var front, l := ls[..|ls| - 1], ls[|ls| - 1];
      assert ls == front + [l];
      LinesExactly(front);
      LinesSnoc(front, l, Nothing);
      if LowerLines(front, Nothing).Ok? {
        var t := LowerLines(front, Nothing).value;
        var k, d := OneLine(l, t);
        LinesOkSnoc(front, l, t);
        if LowerCall(l.block, l.call, t).Ok? {
          ReflectsSnoc(front, l, t, k, d);
        }
      } else {
        LinesOkFront(front, l);
      }
    }
  }

  lemma NoLines()
    ensures LowerLines([], Nothing) == Ok(Nothing) && LinesOk([]) && Reflects([], Nothing)
  {
  }

  lemma LinesOkFront(front: seq<Line>, l: Line)
    ensures LinesOk(front + [l]) ==> LinesOk(front)
  {
    hide Sets, Known;
    var ls := front + [l];
    assert forall i :: 0 <= i < |front| ==> ls[i] == front[i];
  }

  lemma LinesOkSnoc(front: seq<Line>, l: Line, t: Lowered)
    requires LinesOk(front) && Reflects(front, t)
    ensures LinesOk(front + [l]) <==> Known(l) && forall k :: Sets(l, k) ==> k !in t.present
  {
    hide Sets, Known, SetTo;
    var ls := front + [l];
    assert ls[|front|] == l && forall i :: 0 <= i < |front| ==> ls[i] == front[i];
    forall k
      ensures k in t.present <==> IsSet(front, k)
    {
      assert ReflectsOn(front, t, k);
    }
    hide Reflects;
    if LinesOk(ls) {
      forall k | Sets(l, k)
        ensures k !in t.present
      {
        forall i | 0 <= i < |front|
          ensures !Sets(front[i], k)
        {
          assert ls[i] == front[i] && Sets(ls[|front|], k);
        }
      }
    }
  }

  lemma SetToSnoc(front: seq<Line>, l: Line, k: Setting, d: Datum)
    ensures SetTo(front, k, d) || (Sets(l, k) && Gives(k, l.call.args, d)) ==> SetTo(front + [l], k, d)
  {
    hide Sets, Gives;
    var ls := front + [l];
    assert ls[|front|] == l;
    if i :| 0 <= i < |front| && Sets(front[i], k) && Gives(k, front[i].call.args, d) {
      assert ls[i] == front[i];
    }
  }

  lemma IsSetSnoc(front: seq<Line>, l: Line, k: Setting)
    ensures IsSet(front + [l], k) <==> Sets(l, k) || IsSet(front, k)
  {
    hide Sets;
    var ls := front + [l];
    assert ls[|front|] == l;
    if i :| 0 <= i < |front| && Sets(front[i], k) {
      assert ls[i] == front[i];
    }
  }

  lemma AddedOn(t: Lowered, k: Setting, d: Datum, j: Setting)
    requires Fits(k, d)
    ensures Added(t, k, d).conf[j] == if j == k then d else t.conf[j]
    ensures j in Added(t, k, d).present <==> j == k || j in t.present
  {
  }

  lemma ReflectsSnoc(front: seq<Line>, l: Line, t: Lowered, k: Setting, d: Datum)
    requires Reflects(front, t) && Sets(l, k) && Gives(k, l.call.args, d) && Fits(k, d)
    requires forall j :: Sets(l, j) ==> j == k
    ensures Reflects(front + [l], Added(t, k, d))
  {
    hide Sets, Gives, SetTo, IsSet, ZeroOf, Added, Fits;
    forall j
      ensures ReflectsOn(front + [l], Added(t, k, d), j)
    {
      assert ReflectsOn(front, t, j);
      IsSetSnoc(front, l, j);
      AddedOn(t, k, d, j);
      SetToSnoc(front, l, j, Added(t, k, d).conf[j]);
    }
  }

  // ---- The statements of a file ----

  lemma {:induction false} BodyIsLines(block: string, body: seq<Stmt>, s: Lowered)
    ensures LowerBody(block, body, s).Ok? <==>
            (forall t :: t in body ==> t.CallStmt?) && LowerLines(BodyLines(block, body), s).Ok?
    ensures LowerBody(block, body, s).Ok? ==> LowerBody(block, body, s) == LowerLines(BodyLines(block, body), s)
    decreases |body|
  {
    hide LowerCall;
    if body != [] {
      var first, rest := body[0], body[1..];
      assert body == [first] + rest;
      if first.CallStmt? {
        var l, more := Line(block, first.call), BodyLines(block, rest);
        assert BodyLines(block, body) == [l] + more;
        assert ([l] + more)[1..] == more;
        var t := LowerCall(block, first.call, s);
        if t.Ok? {
          BodyIsLines(block, rest, t.value);
        }
      } else {
        assert first in body;
      }
    }
  }

  lemma {:induction false} LinesConcat(a: seq<Line>, b: seq<Line>, s: Lowered)
    ensures LowerLines(a + b, s) ==
            match LowerLines(a, s) { case Ok(t) => LowerLines(b, t) case Err(e) => Err(e) }
    decreases |a|
  {
    hide LowerCall;
    if a == [] {
      assert a + b == b;
    } else {
      assert (a + b)[0] == a[0] && (a + b)[1..] == a[1..] + b;
      var t := LowerCall(a[0].block, a[0].call, s);
      if t.Ok? {
        LinesConcat(a[1..], b, t.value);
      }
    }
  }

  /** The calls do not look at the blocks seen. */
  lemma {:induction false} SeenIgnored(ls: seq<Line>, s: Lowered, seen: set<string>)
    ensures LowerLines(ls, s.(seen := seen)) ==
            match LowerLines(ls, s) { case Ok(t) => Ok(t.(seen := seen)) case Err(e) => Err(e) }
    ensures LowerLines(ls, s).Ok? ==> LowerLines(ls, s).value.seen == s.seen
    decreases |ls|
  {
    hide Named, ReadArg;
    if ls != [] {
      var t := LowerCall(ls[0].block, ls[0].call, s);
      if t.Ok? {
        SeenIgnored(ls[1..], t.value, seen);
      }
    }
  }

  /** Well-formed statements, each block once and none of those already seen. */
  ghost predicate Structured(ss: seq<Stmt>, seen: set<string>) {
    && (forall i :: 0 <= i < |ss| ==> WellFormed(ss[i]) && (ss[i].Block? ==> ss[i].name !in seen))
    && BlocksOnce(ss)
  }

  lemma StructuredTail(ss: seq<Stmt>, seen: set<string>)
    requires ss != []
    ensures Structured(ss, seen) <==>
            && WellFormed(ss[0]) && (ss[0].Block? ==> ss[0].name !in seen)
            && Structured(ss[1..], if ss[0].Block? then seen + {ss[0].name} else seen)
  {
    hide WellFormed;
    var rest := ss[1..];
    assert forall i :: 0 < i < |ss| ==> ss[i] == rest[i - 1];
    if Structured(ss, seen) {
      forall i | 0 <= i < |rest|
        ensures WellFormed(rest[i]) && (rest[i].Block? ==> rest[i].name !in seen)
        ensures rest[i].Block? && ss[0].Block? ==> rest[i].name != ss[0].name
      {
        assert rest[i] == ss[i + 1];
      }
      forall i, j | 0 <= i < j < |rest| && rest[i].Block? && rest[j].Block?
        ensures rest[i].name != rest[j].name
      {
        assert rest[i] == ss[i + 1] && rest[j] == ss[j + 1];
      }
    }
  }

  /** One statement: its structure, and then its calls. */
  lemma OneStmt(st: Stmt, s: Lowered)
    ensures LowerStmt(st, s).Ok? <==>
            WellFormed(st) && (st.Block? ==> st.name !in s.seen) && LowerLines(LinesOf(st), s).Ok?
    ensures LowerStmt(st, s).Ok? ==>
              LowerStmt(st, s).value ==
              LowerLines(LinesOf(st), s).value.(seen := if st.Block? then s.seen + {st.name} else s.seen)
  {
    hide LowerCall, LowerBody, LowerLines, KnownBlock, Legacy;
    match st
    case Block(name, id, body, _) =>
      BodyIsLines(name, body, s.(seen := s.seen + {name}));
      SeenIgnored(BodyLines(name, body), s, s.seen + {name});
    case CallStmt(c) =>
      OneCall(Line("", c), s);
      SeenIgnored([Line("", c)], s, s.seen);
  }

  lemma OneCall(l: Line, s: Lowered)
    ensures LowerLines([l], s) == LowerCall(l.block, l.call, s)
  {
    assert [l][1..] == [];
  }

  lemma {:induction false} StmtsAreLines(ss: seq<Stmt>, s: Lowered)
    ensures LowerStmts(ss, s).Ok? <==> Structured(ss, s.seen) && LowerLines(Lines(ss), s).Ok?
    ensures LowerStmts(ss, s).Ok? ==>
              var r, t := LowerStmts(ss, s).value, LowerLines(Lines(ss), s).value;
              r.conf == t.conf && r.present == t.present
    decreases |ss|
  {
    hide LowerStmt, LinesOf, Structured, WellFormed, LowerLines;
    if ss == [] {
      NoStmts(s);
    } else {
      var first, rest := ss[0], ss[1..];
      OneStmt(first, s);
      StructuredTail(ss, s.seen);
      LinesConcat(LinesOf(first), Lines(rest), s);
      var seen := if first.Block? then s.seen + {first.name} else s.seen;
      if LowerLines(LinesOf(first), s).Ok? {
        var t := LowerLines(LinesOf(first), s).value;
        SeenIgnored(Lines(rest), t, seen);
        StmtsAreLines(rest, t.(seen := seen));
      }
    }
  }

  lemma NoStmts(s: Lowered)
    ensures Structured([], s.seen) && LowerLines([], s) == Ok(s)
  {
  }

  /** A file is accepted exactly when it parses, every top-level call is no setting of older files, every block is a
      known one, there once, without an identifier and of calls only, every call sets a setting of its place to a
      value its arguments give, and none is set twice. The settings set are then present, each with its value, and
      every other one has its zero value. */
  lemma AcceptsExactly(src: string)
    ensures ParseText(src).Ok? <==>
            && ConfParser.Parse(src).Ok?
            && var ss := ConfParser.Parse(src).value.stmts;
               (forall s :: s in ss ==> WellFormed(s)) && BlocksOnce(ss) && LinesOk(Lines(ss))
    ensures ParseText(src).Ok? ==>
              var ls, r := Lines(ConfParser.Parse(src).value.stmts), ParseText(src).value;
              && (forall k :: k in r.1 <==> IsSet(ls, k))
              && (forall k :: if k in r.1 then SetTo(ls, k, r.0[k]) else r.0[k] == ZeroOf(k))
  {
    hide ConfParser.Parse, LowerStmts, LowerLines, Lines, LinesOk, WellFormed, BlocksOnce, IsSet, SetTo, ZeroOf,
         Reflects;
    if ConfParser.Parse(src).Ok? {
      var ss := ConfParser.Parse(src).value.stmts;
      StmtsAreLines(ss, Nothing);
      LinesExactly(Lines(ss));
      StructuredMeans(ss);
      if LowerLines(Lines(ss), Nothing).Ok? {
        ReflectsMeans(Lines(ss), LowerLines(Lines(ss), Nothing).value);
      }
    }
  }

  lemma StructuredMeans(ss: seq<Stmt>)
    ensures Structured(ss, {}) <==> (forall s :: s in ss ==> WellFormed(s)) && BlocksOnce(ss)
  {
    hide WellFormed;
  }

  lemma ReflectsMeans(ls: seq<Line>, t: Lowered)
    requires Reflects(ls, t)
    ensures forall k :: k in t.present <==> IsSet(ls, k)
    ensures forall k :: if k in t.present then SetTo(ls, k, t.conf[k]) else t.conf[k] == ZeroOf(k)
  {
    hide IsSet, SetTo, ZeroOf;
    forall k
      ensures k in t.present <==> IsSet(ls, k)
      ensures if k in t.present then SetTo(ls, k, t.conf[k]) else t.conf[k] == ZeroOf(k)
    {
      assert ReflectsOn(ls, t, k);
    }
  }
}
