/** kive.conf written and read back (bucket/kive_conf_block.go): which configurations survive, and as what. */
module KiveRoundTrip {
  import opened Prelude
  import opened ConfText
  import opened ConfNumber
  import opened ConfAst
  import opened Strings
  import opened KiveConfig
  import ConfParser
  import ConfEmit
  import ConfRoundTrip

  // ---- What comes back ----

  function NormalRange(raw: string): string {
    match ParsePortRange(raw)
    case None => ""
    case Some((low, high)) => RangeText(low, high)
  }

  /** Trimmed and defaulted timezone, default certificate lifetime for zero, no limit below one, no explicit
      default for `observe`, a canonical port range or none, a trimmed profile; the rest as it is. */
  function NormalOf(c: KiveConf, k: Setting): (d: Datum)
    ensures Fits(k, d)
  {
    match k
    case Timezone => Text(ResolveTimezone(c[k].text))
    case CertsTtl => if c[k] == Num(0) then Num(DefaultCertsTTL) else c[k]
    case MaxSyncs => if c[k].n >= 1 then c[k] else Num(0)
    case Observe => if c[k] == Maybe(Some(false)) then c[k] else Maybe(None)
    case Ports => Text(NormalRange(c[k].text))
    case Profile => (match SanitizeProfile(c[k].text) case Some(p) => Text(p) case None => Text(""))
    case _ => c[k]
  }

  function Normalise(c: KiveConf): KiveConf {
    map k: Setting :: NormalOf(c, k)
  }

  /** No integer below -1 (a limit below one is not printed), and a profile that can name a file. */
  predicate Readable(c: KiveConf, k: Setting) {
    match k
    case MaxSyncs => true
    case Profile => SanitizeProfile(c[k].text).Some?
    case _ => c[k].Num? ==> c[k].n >= -1
  }

  predicate Acceptable(c: KiveConf) {
    forall k :: Readable(c, k)
  }

  // ---- One setting ----

  /** What the lowerers give for printed values. */
  lemma ReadsText(c: Call, s: string)
    requires EraseValues(c.args) == EraseValues([StringLit(s, NoPos)])
    ensures SingleString(c) == Ok(s)
  {
    OneArg(c.args, StringLit(s, NoPos));
  }

  lemma ReadsFlag(c: Call, b: bool)
    requires EraseValues(c.args) == EraseValues([BoolLit(b, NoPos)])
    ensures SingleBool(c) == Ok(b)
  {
    OneArg(c.args, BoolLit(b, NoPos));
  }

  lemma ReadsInt(c: Call, n: int)
    requires EraseValues(c.args) == EraseValues([IntLit(n)])
    ensures if n >= -1 then SingleInt(c) == Ok(n) else SingleInt(c).Err?
  {
    OneArg(c.args, IntLit(n));
  }

  lemma OneArg(args: seq<Value>, v: Value)
    requires EraseValues(args) == EraseValues([v])
    ensures |args| == 1 && EraseValue(args[0]) == EraseValue(v)
  {
    ErasedAt(args, 0);
    ErasedAt([v], 0);
  }

  lemma {:induction false} ErasedAt(vs: seq<Value>, i: nat)
    requires i < |vs|
    ensures EraseValues(vs)[i] == EraseValue(vs[i])
  {
    hide EraseValue;
    if i > 0 {
      ErasedAt(vs[1..], i - 1);
    }
  }

  lemma ReadsPair(c: Call, low: int, high: int)
    requires EraseValues(c.args) == EraseValues([IntLit(low), IntLit(high)]) && low >= 1 && high >= 1
    ensures PortRangeArg(c) == Ok(RangeText(low, high))
  {
    var vs := [IntLit(low), IntLit(high)];
    ErasedAt(vs, 0);
    ErasedAt(vs, 1);
    ErasedAt(c.args, 0);
    ErasedAt(c.args, 1);
  }

  lemma {:induction false} ReadsList(vs: seq<Value>, items: seq<string>)
    requires EraseValues(vs) == EraseValues(StringArgs(items))
    ensures AsStrings(vs) == Ok(items)
    decreases |items|
  {
    if items != [] {
      var ws := StringArgs(items);
      ErasedAt(vs, 0);
      ErasedAt(ws, 0);
      assert ws[1..] == StringArgs(items[1..]);
      assert EraseValues(vs)[1..] == EraseValues(vs[1..]);
      assert EraseValues(ws)[1..] == EraseValues(ws[1..]);
      ReadsList(vs[1..], items[1..]);
      assert [items[0]] + items[1..] == items;
    }
  }

  lemma ResolvedIsTrimmed(tz: string)
    ensures TrimSpace(ResolveTimezone(tz)) == ResolveTimezone(tz)
  {
    StripEnds(tz, GoSpace);
  }

  lemma RangeBounds(raw: string)
    requires ParsePortRange(raw).Some?
    ensures var r := ParsePortRange(raw).value; 1 <= r.0 <= r.1 <= MaxPort
    ensures raw != ""
  {
  }

  /** What each kind of setting reads, and what it then counts as, setting by setting. */
  lemma NumberSetting(c: KiveConf, k: Setting, call: Call)
    requires c[k].Num?
    ensures ReadArg(k, call) == Wrap(SingleInt(call), n => Num(n))
    ensures k != MaxSyncs ==> (Readable(c, k) <==> c[k].n >= -1)
    ensures k == MaxSyncs ==> Readable(c, k)
  {
    hide SingleInt;
  }

  lemma PrintedNumber(c: KiveConf, k: Setting)
    requires c[k].Num? && Shown(c, k)
    ensures Printed(c, k) == NormalOf(c, k) && Printed(c, k).Num?
    ensures k == MaxSyncs ==> Printed(c, k).n >= 1
    ensures Printed(c, k).n >= -1 <==> c[k].n >= -1
  {
  }

  lemma ReadsBackNumber(c: KiveConf, k: Setting, call: Call)
    requires c[k].Num? && Shown(c, k) && EraseValues(call.args) == EraseValues(Args(Printed(c, k)))
    ensures if Readable(c, k) then ReadArg(k, call) == Ok(NormalOf(c, k)) else ReadArg(k, call).Err?
  {
    hide EraseValues, SingleInt, IntLit, Shown, Printed, NormalOf, Readable, ReadArg;
    NumberSetting(c, k, call);
    PrintedNumber(c, k);
    ReadsInt(call, Printed(c, k).n);
  }

  lemma ReadsBackTimezone(c: KiveConf, call: Call)
    requires Shown(c, Timezone) && EraseValues(call.args) == EraseValues(Args(Printed(c, Timezone)))
    ensures Readable(c, Timezone) && ReadArg(Timezone, call) == Ok(NormalOf(c, Timezone))
  {
    hide EraseValues, SingleString, TrimSpace, ResolveTimezone;
    ReadsText(call, Printed(c, Timezone).text);
    ResolvedIsTrimmed(c[Timezone].text);
  }

  lemma ReadsBackProfile(c: KiveConf, call: Call)
    requires Shown(c, Profile) && EraseValues(call.args) == EraseValues(Args(Printed(c, Profile)))
    ensures if Readable(c, Profile) then ReadArg(Profile, call) == Ok(NormalOf(c, Profile))
            else ReadArg(Profile, call).Err?
  {
    hide EraseValues, SingleString, SanitizeProfile;
    ReadsText(call, Printed(c, Profile).text);
  }

  predicate PlainText(k: Setting) {
    k in {SshUser, SshKey, StrictHostKey, LogFormat, PythonPath, JsPath, RubyPath, BashPath, SignerCa}
  }

  lemma ReadsBackPlain(c: KiveConf, k: Setting, call: Call)
    requires PlainText(k) && Shown(c, k) && EraseValues(call.args) == EraseValues(Args(Printed(c, k)))
    ensures Readable(c, k) && ReadArg(k, call) == Ok(NormalOf(c, k))
  {
    hide EraseValues, SingleString, PlainText, Shown, Printed, NormalOf, Readable, ReadArg;
    PlainSetting(c, k, call);
    ReadsText(call, c[k].text);
  }

  lemma PlainSetting(c: KiveConf, k: Setting, call: Call)
    requires PlainText(k) && Shown(c, k)
    ensures Readable(c, k) && c[k].Text? && Printed(c, k) == c[k] == NormalOf(c, k)
    ensures ReadArg(k, call) == Wrap(SingleString(call), s => Text(s))
  {
    hide SingleString;
  }

  lemma TextSettings(c: KiveConf, k: Setting)
    ensures c[k].Text? <==> PlainText(k) || k == Timezone || k == Profile || k == Ports
  {
  }

  /** A printed setting is read back normalised, or refused when it is not readable. */
  lemma ReadsBack(c: KiveConf, k: Setting, call: Call)
    requires Shown(c, k) && EraseValues(call.args) == EraseValues(Args(Printed(c, k)))
    ensures if Readable(c, k) then ReadArg(k, call) == Ok(NormalOf(c, k)) else ReadArg(k, call).Err?
  {
    hide EraseValues, SingleBool, AsStrings, PortRangeArg, ParsePortRange, IntLit, RangeText;
    TextSettings(c, k);
    if c[k].Num? {
      ReadsBackNumber(c, k, call);
    } else if PlainText(k) {
      ReadsBackPlain(c, k, call);
    } else if k == Timezone {
      ReadsBackTimezone(c, call);
    } else if k == Profile {
      ReadsBackProfile(c, call);
    } else if k == Ports {
      RangeBounds(c[k].text);
      ReadsPair(call, Printed(c, k).low, Printed(c, k).high);
    } else if k == SignerTrust {
      ReadsList(call.args, c[k].items);
    } else {
      ReadsFlag(call, Printed(c, k).on);
    }
  }

  /** A setting that is not printed has its zero value afterwards. */
  lemma Unprinted(c: KiveConf, k: Setting)
    requires !Shown(c, k)
    ensures NormalOf(c, k) == ZeroOf(k) && Readable(c, k)
  {
    hide ParsePortRange, SanitizeProfile, ResolveTimezone;
    NoProfile();
    NoRange();
  }

  lemma NoProfile()
    ensures SanitizeProfile("") == Some("")
  {
  }

  lemma NoRange()
    ensures ParsePortRange("") == None
  {
  }

  // ---- Names ----

  lemma NamedEarly(k: Setting)
    requires Rank(k) <= 4
    ensures Named(BlockOf(k), NameOf(k)) == Some(k)
  {
  }

  lemma NamedLate(k: Setting)
    requires Rank(k) > 4
    ensures Named(BlockOf(k), NameOf(k)) == Some(k)
  {
  }

  lemma NamedSetting(k: Setting)
    ensures Named(BlockOf(k), NameOf(k)) == Some(k)
  {
    hide Named, BlockOf, NameOf, Rank;
    if Rank(k) <= 4 {
      NamedEarly(k);
    } else {
      NamedLate(k);
    }
  }

  lemma TopNotLegacy(k: Setting)
    requires BlockOf(k) == ""
    ensures !Legacy(NameOf(k))
  {
  }

  // ---- The layout ----

  /** The section a setting is written in, and the section of a block. */
  function Rank(k: Setting): nat {
    match k
    case Timezone => 0
    case UseSudo | SshUser | SshKey | SshPort | StrictHostKey => 1
    case LogFormat | RunCount | RunDays => 2
    case BackupCount => 3
    case HealthWait | HealthPoll => 4
    case MaxSyncs => 5
    case PythonPath | JsPath | RubyPath | BashPath => 6
    case SignerCa | SignerTrust => 7
    case Promotion | Observe => 8
    case Ports => 9
    case CertsTtl => 10
    case CertsBuffer => 11
    case Iptables => 12
    case Profile => 13
  }

  function BlockRank(b: string): nat {
    if b == "ssh" then 1 else if b == "log_config" then 2 else if b == "backup" then 3 else if b == "health" then 4
    else if b == "deploy" then 5 else if b == "interpreters" then 6 else if b == "job_signer" then 7 else 8
  }

  function Members(sec: Section): seq<Setting> {
    match sec
    case Top(k) => [k]
    case Group(_, ks) => ks
  }

  ghost predicate SectionOk(sec: Section, i: nat) {
    Distinct(Members(sec))
    && (forall k :: k in Members(sec) <==> Rank(k) == i)
    && (forall k :: k in Members(sec) ==> BlockOf(k) == if sec.Top? then "" else sec.block)
    && (sec.Group? ==> BlockRank(sec.block) == i && KnownBlock(sec.block))
  }

  lemma TopOk(k: Setting)
    requires BlockOf(k) == ""
    ensures SectionOk(Top(k), Rank(k))
  {
    assert Members(Top(k)) == [k];
    forall j
      ensures j in [k] <==> Rank(j) == Rank(k)
    {
    }
  }

  lemma EarlyMembers(i: nat, k: Setting)
    requires 1 <= i <= 2
    ensures k in Members(Layout[i]) <==> Rank(k) == i
  {
  }

  lemma MiddleMembers(i: nat, k: Setting)
    requires 3 <= i <= 5
    ensures k in Members(Layout[i]) <==> Rank(k) == i
  {
  }

  lemma LateMembers(i: nat, k: Setting)
    requires 6 <= i <= 8
    ensures k in Members(Layout[i]) <==> Rank(k) == i
  {
  }

  lemma RankBlock(i: nat, k: Setting)
    requires 1 <= i <= 8 && Rank(k) == i
    ensures BlockOf(k) == Layout[i].block
  {
  }

  lemma GroupOk(i: nat)
    requires 1 <= i <= 8
    ensures SectionOk(Layout[i], i)
  {
    hide Rank, BlockOf;
    forall k
      ensures k in Members(Layout[i]) <==> Rank(k) == i
      ensures Rank(k) == i ==> BlockOf(k) == Layout[i].block
    {
      if i <= 2 {
        EarlyMembers(i, k);
      } else if i <= 5 {
        MiddleMembers(i, k);
      } else {
        LateMembers(i, k);
      }
      if Rank(k) == i {
        RankBlock(i, k);
      }
    }
  }

  lemma LayoutOk(i: nat)
    requires i < |Layout|
    ensures SectionOk(Layout[i], i)
  {
    hide SectionOk, BlockRank, KnownBlock;
    if 1 <= i <= 8 {
      GroupOk(i);
    } else {
      TopOk(Layout[i].k);
    }
  }

  // ---- Reading the file ----

  /** After the sections before `i`: exactly their printed settings are present, each with its normal value. */
  ghost predicate At(c: KiveConf, i: nat, s: Lowered) {
    (forall k :: k in s.present <==> Rank(k) < i && Shown(c, k))
    && Mirrors(c, s)
    && forall b :: b in s.seen ==> BlockRank(b) < i
  }

  ghost predicate Mirrors(c: KiveConf, s: Lowered) {
    forall k :: s.conf[k] == if k in s.present then NormalOf(c, k) else ZeroOf(k)
  }

  lemma LowersCall(c: KiveConf, k: Setting, st: Stmt, s: Lowered)
    requires Mirrors(c, s) && k !in s.present && Shown(c, k)
    requires EraseStmt(st) == EraseStmt(SettingCall(c, k))
    ensures st.CallStmt? && st.call.name == NameOf(k)
    ensures var r := LowerCall(BlockOf(k), st.call, s);
            if Readable(c, k)
            then r.Ok? && Mirrors(c, r.value) && r.value.present == s.present + {k} && r.value.seen == s.seen
            else r.Err?
  {
    hide Named, ReadArg, BlockOf, NameOf, NormalOf, Readable, Shown, Fits, SettingCall, EraseStmt, Put, Mirrors;
    CallParts(c, k, st);
    NamedSetting(k);
    ReadsBack(c, k, st.call);
    if Readable(c, k) {
      MirrorsPut(c, k, s);
    }
  }

  lemma MirrorsPut(c: KiveConf, k: Setting, s: Lowered)
    requires Mirrors(c, s)
    ensures Mirrors(c, s.(conf := Put(s.conf, k, NormalOf(c, k)), present := s.present + {k}))
  {
    hide NormalOf, ZeroOf, Fits;
  }

  lemma CallParts(c: KiveConf, k: Setting, st: Stmt)
    requires Shown(c, k) && EraseStmt(st) == EraseStmt(SettingCall(c, k))
    ensures st.CallStmt? && st.call.name == NameOf(k)
    ensures EraseValues(st.call.args) == EraseValues(Args(Printed(c, k)))
  {
    hide Shown, NameOf, Args, Printed, EraseValues;
  }

  lemma {:induction false} LowersBody(c: KiveConf, block: string, ks: seq<Setting>, body: seq<Stmt>, s: Lowered)
    requires Mirrors(c, s) && Distinct(ks) && forall k :: k in ks ==> k !in s.present && BlockOf(k) == block
    requires EraseStmts(body) == EraseStmts(BodyStmts(c, ks))
    ensures var r := LowerBody(block, body, s);
            if forall k :: k in ks ==> Readable(c, k)
            then r.Ok? && Mirrors(c, r.value) && r.value.seen == s.seen
                 && forall k :: k in r.value.present <==> k in s.present || (k in ks && Shown(c, k))
            else r.Err?
    decreases |ks|
  {
    hide LowerCall, BlockOf, NormalOf, Readable, Shown, EraseStmts, EraseStmt, SettingCall, Mirrors;
    if ks == [] {
      NoStmts(body);
    } else {
      var k := ks[0];
      assert ks == [k] + ks[1..];
      assert k !in ks[1..] && Distinct(ks[1..]);
      if Shown(c, k) {
        EraseHead(body, SettingCall(c, k), BodyStmts(c, ks[1..]));
        LowersCall(c, k, body[0], s);
        var r := LowerCall(block, body[0].call, s);
        if r.Ok? {
          LowersBody(c, block, ks[1..], body[1..], r.value);
        }
      } else {
        Unprinted(c, k);
        assert BodyStmts(c, ks) == BodyStmts(c, ks[1..]);
        LowersBody(c, block, ks[1..], body, s);
      }
    }
  }

  lemma NoStmts(body: seq<Stmt>)
    requires EraseStmts(body) == EraseStmts([])
    ensures body == []
  {
  }

  lemma LowersTop(c: KiveConf, k: Setting, ss: seq<Stmt>, rest: seq<Stmt>, s: Lowered)
    requires Mirrors(c, s) && k !in s.present && Shown(c, k) && BlockOf(k) == ""
    requires EraseStmts(ss) == EraseStmts([SettingCall(c, k)] + rest)
    ensures ss != [] && EraseStmts(ss[1..]) == EraseStmts(rest)
    ensures var r := LowerStmt(ss[0], s);
            if Readable(c, k)
            then r.Ok? && Mirrors(c, r.value) && r.value.present == s.present + {k} && r.value.seen == s.seen
            else r.Err?
  {
    hide Legacy, LowerCall, BlockOf, NameOf, Shown, SettingCall, EraseStmt, EraseStmts, Mirrors, Readable;
    EraseHead(ss, SettingCall(c, k), rest);
    LowersCall(c, k, ss[0], s);
    TopNotLegacy(k);
  }

  lemma LowersGroup(c: KiveConf, block: string, ks: seq<Setting>, ss: seq<Stmt>, rest: seq<Stmt>, s: Lowered)
    requires Mirrors(c, s) && Distinct(ks) && forall k :: k in ks ==> k !in s.present && BlockOf(k) == block
    requires block !in s.seen && KnownBlock(block)
    requires EraseStmts(ss) == EraseStmts([Stmt.Block(block, "", BodyStmts(c, ks), NoPos)] + rest)
    ensures ss != [] && EraseStmts(ss[1..]) == EraseStmts(rest)
    ensures var r := LowerStmt(ss[0], s);
            if forall k :: k in ks ==> Readable(c, k)
            then r.Ok? && Mirrors(c, r.value) && r.value.seen == s.seen + {block}
                 && forall k :: k in r.value.present <==> k in s.present || (k in ks && Shown(c, k))
            else r.Err?
  {
    hide KnownBlock, LowerBody, BlockOf, Shown, BodyStmts, EraseStmts, NormalOf, ZeroOf, Readable;
    EraseHead(ss, Stmt.Block(block, "", BodyStmts(c, ks), NoPos), rest);
    LowersBody(c, block, ks, ss[0].body, s.(seen := s.seen + {block}));
  }

  lemma {:induction false} NothingShown(c: KiveConf, ks: seq<Setting>)
    ensures BodyStmts(c, ks) == [] <==> forall k :: k in ks ==> !Shown(c, k)
  {
    hide Shown, SettingCall;
    if ks != [] {
      assert ks == [ks[0]] + ks[1..];
      NothingShown(c, ks[1..]);
    }
  }

  /** The settings from section `i` on can all be read. */
  ghost predicate ReadableFrom(c: KiveConf, i: nat) {
    forall k :: Rank(k) >= i ==> Readable(c, k)
  }

  /** One section: either it prints nothing, or it is one statement that is lowered to the next point. */
  lemma LowersSection(c: KiveConf, i: nat, ss: seq<Stmt>, rest: seq<Stmt>, s: Lowered)
    requires i < |Layout| && At(c, i, s)
    requires EraseStmts(ss) == EraseStmts(SectionStmts(c, Layout[i]) + rest)
    ensures SectionStmts(c, Layout[i]) == [] ==>
              EraseStmts(ss) == EraseStmts(rest) && At(c, i + 1, s) && forall k :: Rank(k) == i ==> Readable(c, k)
    ensures SectionStmts(c, Layout[i]) != [] ==>
              && ss != [] && EraseStmts(ss[1..]) == EraseStmts(rest)
              && var r := LowerStmt(ss[0], s);
              if forall k :: Rank(k) == i ==> Readable(c, k) then r.Ok? && At(c, i + 1, r.value) else r.Err?
  {
    hide Layout, LowerStmt, BlockOf, Shown, BodyStmts, EraseStmts, NormalOf, ZeroOf, Readable, Mirrors, Rank,
         KnownBlock, BlockRank, SettingCall;
    LayoutOk(i);
    var sec := Layout[i];
    NothingShown(c, Members(sec));
    if SectionStmts(c, sec) == [] {
      assert [] + rest == rest;
      forall k | k in Members(sec)
        ensures Readable(c, k)
      {
        Unprinted(c, k);
      }
    } else {
      match sec
      case Top(k) =>
        OneSetting(c, k);
        LowersTop(c, k, ss, rest, s);
      case Group(block, ks) =>
        LowersGroup(c, block, ks, ss, rest, s);
    }
  }

  lemma OneSetting(c: KiveConf, k: Setting)
    ensures BodyStmts(c, [k]) == if Shown(c, k) then [SettingCall(c, k)] else []
  {
    hide Shown, SettingCall;
    assert [k][1..] == [];
    assert BodyStmts(c, [k][1..]) == [];
  }

  lemma {:induction false} LowersFrom(c: KiveConf, i: nat, ss: seq<Stmt>, s: Lowered)
    requires i <= |Layout| && At(c, i, s)
    requires EraseStmts(ss) == EraseStmts(FileStmts(c, Layout[i..]))
    ensures var r := LowerStmts(ss, s);
            if ReadableFrom(c, i) then r.Ok? && At(c, |Layout|, r.value) else r.Err?
    decreases |Layout| - i
  {
    hide Layout, LowerStmt, EraseStmts, Readable, Rank, At, SectionStmts;
    if i == |Layout| {
      NoStmts(ss);
      RankBound();
    } else {
      var sec := Layout[i];
      assert Layout[i..][0] == sec && Layout[i..][1..] == Layout[i + 1..];
      LowersSection(c, i, ss, FileStmts(c, Layout[i + 1..]), s);
      if SectionStmts(c, sec) == [] {
        LowersFrom(c, i + 1, ss, s);
      } else {
        var r := LowerStmt(ss[0], s);
        if r.Ok? {
          LowersFrom(c, i + 1, ss[1..], r.value);
        }
      }
    }
  }

  lemma RankBound()
    ensures forall k :: Rank(k) < |Layout|
  {
  }

  // ---- The printed file is one the parser takes ----

  lemma SshNames(k: Setting)
    requires Rank(k) == 1
    ensures IsIdent(NameOf(k))
  {
    hide ByteLen;
    WordBytes(NameOf(k));
  }

  lemma LogNames(k: Setting)
    requires 2 <= Rank(k) <= 3
    ensures IsIdent(NameOf(k))
  {
    hide ByteLen;
    WordBytes(NameOf(k));
  }

  lemma HealthNames(k: Setting)
    requires 4 <= Rank(k) <= 5
    ensures IsIdent(NameOf(k))
  {
    hide ByteLen;
    WordBytes(NameOf(k));
  }

  lemma LateNames(k: Setting)
    requires 6 <= Rank(k) <= 8
    ensures IsIdent(NameOf(k))
  {
    hide ByteLen;
    WordBytes(NameOf(k));
  }

  lemma TopNames(k: Setting)
    requires Rank(k) == 0 || Rank(k) >= 9
    ensures IsIdent(NameOf(k))
  {
    hide ByteLen;
    WordBytes(NameOf(k));
  }

  lemma NameIsIdent(k: Setting)
    ensures IsIdent(NameOf(k))
  {
    hide IsIdent, NameOf, Rank;
    if Rank(k) == 1 {
      SshNames(k);
    } else if 2 <= Rank(k) <= 3 {
      LogNames(k);
    } else if 4 <= Rank(k) <= 5 {
      HealthNames(k);
    } else if 6 <= Rank(k) <= 8 {
      LateNames(k);
    } else {
      TopNames(k);
    }
  }

  lemma BlockIsIdent(b: string)
    requires KnownBlock(b)
    ensures IsIdent(b)
  {
    hide ByteLen;
    WordBytes(b);
  }

  ghost predicate TextOk(s: string) {
    NoNul(s) && ByteLen(s) <= MaxStringBytes
  }

  /** Strings fit a literal, integers are 64-bit, and no list is longer than an argument list. */
  ghost predicate DatumOk(d: Datum) {
    match d
    case Text(s) => TextOk(s)
    case Num(n) => MinInt64 <= n <= MaxInt64
    case List(items) => |items| <= MaxArgs && forall i :: 0 <= i < |items| ==> TextOk(items[i])
    case Pair(low, high) => 0 <= low <= high <= MaxInt64
    case Flag(_) | Maybe(_) => true
  }

  ghost predicate Printable(c: KiveConf) {
    forall k :: Shown(c, k) ==> DatumOk(Printed(c, k))
  }

  lemma {:induction false} StringArgsOk(items: seq<string>, depth: int)
    requires forall i :: 0 <= i < |items| ==> TextOk(items[i])
    ensures ValuesOk(StringArgs(items), depth)
  {
    hide NoNul, ByteLen;
    if items != [] {
      StringArgsOk(items[1..], depth);
      assert StringArgs(items)[1..] == StringArgs(items[1..]);
    }
  }

  lemma OneValueOk(v: Value, depth: int)
    requires ValueOk(v, depth)
    ensures ValuesOk([v], depth)
  {
    hide ValueOk;
    assert ValuesOk([v][1..], depth);
  }

  lemma TwoValuesOk(v: Value, w: Value, depth: int)
    requires ValueOk(v, depth) && ValueOk(w, depth)
    ensures ValuesOk([v, w], depth)
  {
    hide ValueOk;
    OneValueOk(w, depth);
    assert [v, w][1..] == [w];
  }

  lemma ArgsOk(d: Datum, depth: int)
    requires DatumOk(d)
    ensures ValuesOk(Args(d), depth) && |Args(d)| <= MaxArgs
  {
    hide NoNul, ByteLen, ValuesOk, Itoa;
    match d
    case Text(s) => OneValueOk(StringLit(s, NoPos), depth);
    case Num(n) =>
      ItoaRoundTrip(n);
      OneValueOk(IntLit(n), depth);
    case Flag(b) => OneValueOk(BoolLit(b, NoPos), depth);
    case List(items) => StringArgsOk(items, depth);
    case Maybe(b) =>
      NoValuesOk(depth);
      if b.Some? {
        OneValueOk(BoolLit(b.value, NoPos), depth);
      }
    case Pair(low, high) =>
      ItoaRoundTrip(low);
      ItoaRoundTrip(high);
      TwoValuesOk(IntLit(low), IntLit(high), depth);
  }

  lemma SettingOk(c: KiveConf, k: Setting, depth: int)
    requires Shown(c, k) && DatumOk(Printed(c, k)) && 0 <= depth <= 1
    ensures StmtOk(SettingCall(c, k), depth) && CountStmt(SettingCall(c, k)) == 1
  {
    hide Shown, Printed, NameOf, IsIdent, DatumOk, Args, ValuesOk;
    ArgsOk(Printed(c, k), depth + 1);
    NameIsIdent(k);
    var call := Call(NameOf(k), Args(Printed(c, k)), NoPos, false);
    assert CallOk(call, depth);
  }

  lemma {:induction false} BodyOk(c: KiveConf, ks: seq<Setting>, depth: int)
    requires Printable(c) && 0 <= depth <= 1
    ensures StmtsOk(BodyStmts(c, ks), depth) && CountStmts(BodyStmts(c, ks)) <= |ks|
  {
    hide Shown, Printed, SettingCall, StmtOk, CountStmt;
    if ks != [] {
      BodyOk(c, ks[1..], depth);
      if Shown(c, ks[0]) {
        SettingOk(c, ks[0], depth);
        assert BodyStmts(c, ks)[1..] == BodyStmts(c, ks[1..]);
      } else {
        assert BodyStmts(c, ks) == BodyStmts(c, ks[1..]);
      }
    }
  }

  lemma SectionStmtsOk(c: KiveConf, i: nat)
    requires Printable(c) && i < |Layout|
    ensures var ss := SectionStmts(c, Layout[i]);
            |ss| <= 1 && (ss != [] ==> StmtOk(ss[0], 0) && CountStmt(ss[0]) <= 6)
  {
    hide Shown, Printable, BodyStmts, SettingCall, KnownBlock, IsIdent, StmtsOk, CountStmts, Rank, BlockOf, BlockRank;
    LayoutOk(i);
    match Layout[i]
    case Top(k) =>
      OneSetting(c, k);
      if Shown(c, k) {
        PrintableAt(c, k);
        SettingOk(c, k, 0);
      }
    case Group(block, ks) =>
      BodyOk(c, ks, 1);
      BlockIsIdent(block);
  }

  lemma PrintableAt(c: KiveConf, k: Setting)
    requires Printable(c) && Shown(c, k)
    ensures DatumOk(Printed(c, k))
  {
  }

  lemma {:induction false} FileStmtsOk(c: KiveConf, i: nat)
    requires Printable(c) && i <= |Layout|
    ensures StmtsOk(FileStmts(c, Layout[i..]), 0) && CountStmts(FileStmts(c, Layout[i..])) <= 6 * (|Layout| - i)
    decreases |Layout| - i
  {
    hide Layout, Printable, SectionStmts, StmtOk, CountStmt;
    if i < |Layout| {
      var head, rest := SectionStmts(c, Layout[i]), FileStmts(c, Layout[i + 1..]);
      assert Layout[i..][0] == Layout[i] && Layout[i..][1..] == Layout[i + 1..];
      SectionStmtsOk(c, i);
      FileStmtsOk(c, i + 1);
      if head == [] {
        assert head + rest == rest;
      } else {
        assert (head + rest)[1..] == rest;
      }
    }
  }

  // ---- The round trip ----

  ghost function ShownSettings(c: KiveConf): set<Setting> {
    set k: Setting | Shown(c, k)
  }

  lemma AtEnd(c: KiveConf, s: Lowered)
    requires At(c, |Layout|, s)
    ensures s.conf == Normalise(c) && s.present == ShownSettings(c)
  {
    hide NormalOf, ZeroOf, Shown, Rank, Layout, Fits;
    RankBound();
    forall k
      ensures s.conf[k] == NormalOf(c, k) && (k in s.present <==> Shown(c, k))
    {
      if !Shown(c, k) {
        Unprinted(c, k);
      }
    }
    assert forall k :: k in s.conf && k in Normalise(c);
  }

  lemma AtStart(c: KiveConf)
    ensures At(c, 0, Nothing)
  {
    hide NormalOf, Shown, Rank, BlockRank;
  }

  /** A configuration that is written can be read back exactly when it is acceptable, and then comes back
      normalised, with exactly the printed settings reported as present. */
  lemma RoundTrip(c: KiveConf)
    requires Printable(c) && ByteLen(EmitText(c)) <= MaxSourceBytes
    ensures ParseText(EmitText(c)).Ok? <==> Acceptable(c)
    ensures Acceptable(c) ==> ParseText(EmitText(c)) == Ok((Normalise(c), ShownSettings(c)))
  {
    hide Layout, ConfParser.Parse, ConfEmit.EmitText, LowerStmts, EraseStmts, At, Printable, Readable, Normalise,
         ShownSettings, FileStmts, StmtsOk, CountStmts, ByteLen;
    assert Layout[0..] == Layout;
    FileStmtsOk(c, 0);
    var f := File(0, FileStmts(c, Layout));
    LayoutSize();
    ConfRoundTrip.RoundTrip(f, "");
    var g := ConfParser.Parse(EmitText(c)).value;
    AtStart(c);
    LowersFrom(c, 0, g.stmts, Nothing);
    assert ReadableFrom(c, 0) <==> Acceptable(c);
    if Acceptable(c) {
      AtEnd(c, LowerStmts(g.stmts, Nothing).value);
    }
  }

  lemma LayoutSize()
    ensures |Layout| == 14
  {
  }

  // ---- The normal form is stable ----

  lemma ProfileStable(p: string)
    requires SanitizeProfile(p).Some?
    ensures SanitizeProfile(SanitizeProfile(p).value) == SanitizeProfile(p)
  {
    StripEnds(p, GoSpace);
  }

  lemma DigitsKeep(n: nat)
    ensures TrimSpace(ItoaNat(n)) == ItoaNat(n) && ',' !in ItoaNat(n)
  {
    var s := ItoaNat(n);
    assert AsciiDigit(s[0]) && AsciiDigit(s[|s| - 1]);
  }

  lemma RangeStable(low: int, high: int)
    requires 1 <= low <= high <= MaxPort
    ensures ParsePortRange(RangeText(low, high)) == Some((low, high))
  {
    hide SplitComma, Itoa, ParseInt;
    var xs := [Itoa(low), Itoa(high)];
    ItoaKeeps(low);
    ItoaKeeps(high);
    SplitJoin(xs);
    assert JoinComma(xs) == RangeText(low, high) by {
      assert xs[1..] == [Itoa(high)];
    }
  }

  lemma ItoaKeeps(n: int)
    requires 0 <= n <= MaxPort
    ensures TrimSpace(Itoa(n)) == Itoa(n) && ',' !in Itoa(n) && Atoi(Itoa(n)) == Some(n)
  {
    DigitsKeep(n);
    ItoaRoundTrip(n);
    assert AsciiDigit(Itoa(n)[0]);
  }

  lemma NormalStable(c: KiveConf, d: KiveConf, k: Setting)
    requires Readable(c, k) && d[k] == NormalOf(c, k)
    ensures NormalOf(d, k) == d[k] && Readable(d, k)
  {
    hide ParsePortRange, SanitizeProfile, TrimSpace, RangeText, ResolveTimezone;
    match k
    case Profile => ProfileStable(c[k].text);
    case Timezone => ResolvedStable(c[k].text);
    case Ports =>
      NoRange();
      if ParsePortRange(c[k].text).Some? {
        RangeBounds(c[k].text);
        var r := ParsePortRange(c[k].text).value;
        RangeStable(r.0, r.1);
      }
    case _ =>
  }

  lemma ResolvedStable(tz: string)
    ensures ResolveTimezone(ResolveTimezone(tz)) == ResolveTimezone(tz)
  {
    ResolvedIsTrimmed(tz);
  }

  // ---- The normal form can be printed ----

  lemma {:induction false} TrimLeftOk(s: string)
    requires NoNul(s)
    ensures NoNul(TrimLeft(s, GoSpace)) && ByteLen(TrimLeft(s, GoSpace)) <= ByteLen(s)
  {
    hide ByteLen;
    if s != "" && GoSpace(s[0]) {
      TrimLeftOk(s[1..]);
      ByteLenConcat([s[0]], s[1..]);
      assert s == [s[0]] + s[1..];
    }
  }

  lemma {:induction false} TrimRightOk(s: string)
    requires NoNul(s)
    ensures NoNul(TrimRight(s, GoSpace)) && ByteLen(TrimRight(s, GoSpace)) <= ByteLen(s)
  {
    hide ByteLen;
    var n := |s| - 1;
    if s != "" && GoSpace(s[n]) {
      TrimRightOk(s[..n]);
      ByteLenConcat(s[..n], s[n..]);
      assert s == s[..n] + s[n..];
    }
  }

  lemma TrimSpaceOk(s: string)
    requires TextOk(s)
    ensures TextOk(TrimSpace(s))
  {
    hide ByteLen, NoNul, TrimLeft, TrimRight;
    TrimLeftOk(s);
    TrimRightOk(TrimLeft(s, GoSpace));
  }

  lemma PortsPrintedAgain(c: KiveConf, d: KiveConf)
    requires d[Ports] == NormalOf(c, Ports) && Shown(d, Ports)
    ensures Shown(c, Ports) && Printed(d, Ports) == Printed(c, Ports)
  {
    hide ParsePortRange, RangeText;
    NoRange();
    if ParsePortRange(c[Ports].text).Some? {
      RangeBounds(c[Ports].text);
      var r := ParsePortRange(c[Ports].text).value;
      RangeStable(r.0, r.1);
    }
  }

  lemma TimezonePrintedAgain(c: KiveConf, d: KiveConf)
    requires d[Timezone] == NormalOf(c, Timezone)
    ensures Shown(c, Timezone) && Shown(d, Timezone) && Printed(d, Timezone) == Printed(c, Timezone)
  {
    hide ResolveTimezone;
    ResolvedStable(c[Timezone].text);
  }

  lemma ProfilePrintedAgain(c: KiveConf, d: KiveConf)
    requires d[Profile] == NormalOf(c, Profile) && Readable(c, Profile) && Shown(d, Profile)
    ensures Shown(c, Profile) && Printed(d, Profile) == Text(TrimSpace(Printed(c, Profile).text))
  {
    hide TrimSpace, ProfileToken;
    NoBlanks();
  }

  lemma OtherPrintedAgain(c: KiveConf, d: KiveConf, k: Setting)
    requires d[k] == NormalOf(c, k) && Shown(d, k) && k != Ports && k != Timezone && k != Profile
    ensures Shown(c, k) && Printed(d, k) == Printed(c, k)
  {
    hide ParsePortRange, SanitizeProfile, ResolveTimezone;
  }

  /** What the normal form prints was printed before, except for the blanks around a profile. */
  lemma PrintedAgain(c: KiveConf, d: KiveConf, k: Setting)
    requires d[k] == NormalOf(c, k) && Readable(c, k) && Shown(d, k)
    ensures Shown(c, k)
    ensures if k == Profile then Printed(d, k) == Text(TrimSpace(Printed(c, k).text))
            else Printed(d, k) == Printed(c, k)
  {
    hide Shown, Printed, NormalOf, Readable, TrimSpace;
    match k
    case Timezone => TimezonePrintedAgain(c, d);
    case Profile => ProfilePrintedAgain(c, d);
    case Ports => PortsPrintedAgain(c, d);
    case _ => OtherPrintedAgain(c, d, k);
  }

  lemma NoBlanks()
    ensures TrimSpace("") == ""
  {
  }

  lemma NormalPrintable(c: KiveConf)
    requires Acceptable(c) && Printable(c)
    ensures Printable(Normalise(c))
  {
    hide NormalOf, Readable, Shown, Printed, NoNul, ByteLen, TrimSpace;
    var d := Normalise(c);
    forall k | Shown(d, k)
      ensures DatumOk(Printed(d, k))
    {
      PrintedAgain(c, d, k);
      if k == Profile {
        ProfileText(c);
        TrimSpaceOk(Printed(c, k).text);
      }
    }
  }

  lemma ProfileText(c: KiveConf)
    requires Shown(c, Profile)
    ensures Printed(c, Profile).Text?
  {
  }

  /** Normalising twice is normalising once, so a configuration that was read back is written and read back
      unchanged ever after. */
  lemma Fixpoint(c: KiveConf)
    requires Acceptable(c)
    ensures Acceptable(Normalise(c)) && Normalise(Normalise(c)) == Normalise(c)
    ensures var n := Normalise(c);
            Printable(c) && ByteLen(EmitText(n)) <= MaxSourceBytes ==>
              ParseText(EmitText(n)) == Ok((n, ShownSettings(n)))
  {
    hide NormalOf, Readable, ParseText, EmitText, Printable, ByteLen, ShownSettings;
    forall k
      ensures NormalOf(Normalise(c), k) == Normalise(c)[k] && Readable(Normalise(c), k)
    {
      NormalStable(c, Normalise(c), k);
    }
    var n := Normalise(c);
    assert Normalise(n) == n;
    if Printable(c) && ByteLen(EmitText(n)) <= MaxSourceBytes {
      NormalPrintable(c);
      RoundTrip(n);
    }
  }
}
