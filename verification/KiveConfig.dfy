/** kive.conf: the typed settings lowered from, and printed as, blocks and calls (bucket/kive_conf_block.go,
    bucket/config.go, bucket/port_range.go, bucket/jobs_profile.go). */
module KiveConfig {
  import opened Prelude
  import opened ConfText
  import opened ConfNumber
  import opened ConfAst
  import opened Strings
  import ConfParser
  import ConfParserImpl
  import ConfEmit

  /** The fields of the settings struct; each is set by one call. */
  datatype Setting =
    | UseSudo | SshUser | SshKey | SshPort | StrictHostKey | LogFormat | RunCount | RunDays | BackupCount
    | HealthWait | HealthPoll | MaxSyncs | PythonPath | JsPath | RubyPath | BashPath | SignerCa | SignerTrust
    | Promotion | Observe | Ports | CertsTtl | CertsBuffer | Iptables | Profile | Timezone

  datatype Datum =
    | Text(text: string) | Num(n: int) | Flag(on: bool) | List(items: seq<string>)
    | Maybe(choice: Option<bool>) | Pair(low: int, high: int)

  predicate Fits(k: Setting, d: Datum) {
    match k
    case SshUser | SshKey | StrictHostKey | LogFormat | PythonPath | JsPath | RubyPath | BashPath | SignerCa
      | Ports | Profile | Timezone => d.Text?
    case SshPort | RunCount | RunDays | BackupCount | HealthWait | HealthPoll | MaxSyncs
      | CertsTtl | CertsBuffer => d.Num?
    case UseSudo | Promotion | Iptables => d.Flag?
    case SignerTrust => d.List?
    case Observe => d.Maybe?
  }

  /** The Go zero value of a field. */
  function ZeroOf(k: Setting): (d: Datum)
    ensures Fits(k, d)
  {
    match k
    case SshPort | RunCount | RunDays | BackupCount | HealthWait | HealthPoll | MaxSyncs
      | CertsTtl | CertsBuffer => Num(0)
    case UseSudo | Promotion | Iptables => Flag(false)
    case SignerTrust => List([])
    case Observe => Maybe(None)
    case _ => Text("")
  }

  /** The struct, as the value of each field. */
  type KiveConf = c: map<Setting, Datum> | forall k :: k in c && Fits(k, c[k]) witness map k: Setting :: ZeroOf(k)

  const Zero: KiveConf := map k: Setting :: ZeroOf(k)

  function Put(c: KiveConf, k: Setting, d: Datum): KiveConf
    requires Fits(k, d)
  {
    c[k := d]
  }

  // ---- Names ----

  /** The block a setting belongs to ("" at the top level) and the call that sets it. */
  function BlockOf(k: Setting): string {
    match k
    case UseSudo | SshUser | SshKey | SshPort | StrictHostKey => "ssh"
    case LogFormat | RunCount | RunDays => "log_config"
    case BackupCount => "backup"
    case HealthWait | HealthPoll => "health"
    case MaxSyncs => "deploy"
    case PythonPath | JsPath | RubyPath | BashPath => "interpreters"
    case SignerCa | SignerTrust => "job_signer"
    case Promotion | Observe => "features"
    case Ports | CertsTtl | CertsBuffer | Iptables | Profile | Timezone => ""
  }

  function NameOf(k: Setting): string {
    match k
    case UseSudo => "use_sudo"
    case SshUser => "user"
    case SshKey => "key"
    case SshPort => "port"
    case StrictHostKey => "strict_host_key_checking"
    case LogFormat => "format"
    case RunCount => "run_retention_count"
    case RunDays => "run_retention_days"
    case BackupCount => "retention_count"
    case HealthWait => "wait_seconds"
    case HealthPoll => "poll_interval_seconds"
    case MaxSyncs => "max_concurrent_syncs"
    case PythonPath => "python_path"
    case JsPath => "js_path"
    case RubyPath => "ruby_path"
    case BashPath => "bash_path"
    case SignerCa => "ca"
    case SignerTrust => "ca_trust"
    case Promotion => "promotion"
    case Observe => "observe"
    case Ports => "port_range"
    case CertsTtl => "certs_ttl"
    case CertsBuffer => "certs_renewal_buffer"
    case Iptables => "iptables"
    case Profile => "jobs_profile"
    case Timezone => "timezone"
  }

  function SshSetting(name: string): Option<Setting> {
    if name == "use_sudo" then Some(UseSudo)
    else if name == "user" then Some(SshUser)
    else if name == "key" then Some(SshKey)
    else if name == "port" then Some(SshPort)
    else if name == "strict_host_key_checking" then Some(StrictHostKey)
    else None
  }

  function LogConfigSetting(name: string): Option<Setting> {
    if name == "format" then Some(LogFormat)
    else if name == "run_retention_count" then Some(RunCount)
    else if name == "run_retention_days" then Some(RunDays)
    else None
  }

  function BackupSetting(name: string): Option<Setting> {
    if name == "retention_count" then Some(BackupCount)
    else None
  }

  function HealthSetting(name: string): Option<Setting> {
    if name == "wait_seconds" then Some(HealthWait)
    else if name == "poll_interval_seconds" then Some(HealthPoll)
    else None
  }

  function DeploySetting(name: string): Option<Setting> {
    if name == "max_concurrent_syncs" then Some(MaxSyncs)
    else None
  }

  function InterpretersSetting(name: string): Option<Setting> {
    if name == "python_path" then Some(PythonPath)
    else if name == "js_path" then Some(JsPath)
    else if name == "ruby_path" then Some(RubyPath)
    else if name == "bash_path" then Some(BashPath)
    else None
  }

  function JobSignerSetting(name: string): Option<Setting> {
    if name == "ca" then Some(SignerCa)
    else if name == "ca_trust" then Some(SignerTrust)
    else None
  }

  function FeaturesSetting(name: string): Option<Setting> {
    if name == "promotion" then Some(Promotion)
    else if name == "observe" then Some(Observe)
    else None
  }

  function TopSetting(name: string): Option<Setting> {
    if name == "port_range" then Some(Ports)
    else if name == "certs_ttl" then Some(CertsTtl)
    else if name == "certs_renewal_buffer" then Some(CertsBuffer)
    else if name == "iptables" then Some(Iptables)
    else if name == "jobs_profile" then Some(Profile)
    else if name == "timezone" then Some(Timezone)
    else None
  }

  /** The switch of each block's lowerer. */
  function Named(block: string, name: string): Option<Setting> {
    if block == "ssh" then SshSetting(name)
    else if block == "log_config" then LogConfigSetting(name)
    else if block == "backup" then BackupSetting(name)
    else if block == "health" then HealthSetting(name)
    else if block == "deploy" then DeploySetting(name)
    else if block == "interpreters" then InterpretersSetting(name)
    else if block == "job_signer" then JobSignerSetting(name)
    else if block == "features" then FeaturesSetting(name)
    else if block == "" then TopSetting(name)
    else None
  }

  predicate KnownBlock(name: string) {
    name == "ssh" || name == "log_config" || name == "backup" || name == "health" || name == "deploy"
    || name == "interpreters" || name == "job_signer" || name == "features"
  }

  /** Flat settings of older files, refused with a hint. */
  predicate Legacy(name: string) {
    name in {"use_sudo", "ssh_user", "ssh_key", "ssh_port", "strict_host_key_checking", "log_format",
             "log_run_retention_count", "log_run_retention_days", "backup_retention_count", "health_wait_seconds",
             "max_concurrent_syncs", "python_path", "js_path", "ruby_path", "bash_path", "job_signer_ca",
             "job_signer_ca_trust"}
  }

  // ---- Values ----

  const DefaultTimezone := "UTC"
  const DefaultCertsTTL := 60
  const MaxPort := 65535

  function ResolveTimezone(tz: string): string {
    if TrimSpace(tz) == "" then DefaultTimezone else TrimSpace(tz)
  }

  predicate ProfileStart(c: char) {
    AsciiLetter(c) || AsciiDigit(c)
  }

  /** The profile pattern; it leaves no room for a separator or an absolute path. */
  predicate ProfileToken(s: string) {
    s != "" && ProfileStart(s[0])
    && (forall i :: 0 <= i < |s| ==> ProfileStart(s[i]) || s[i] in "._-")
    && forall i :: 0 <= i < |s| - 1 ==> !(s[i] == '.' && s[i + 1] == '.')
  }

  /** A file-name-safe profile, or none. */
  function SanitizeProfile(profile: string): Option<string> {
    var t := TrimSpace(profile);
    if t == "" || ProfileToken(t) then Some(t) else None
  }

  /** strconv.Atoi, which also takes a plus sign. */
  function Atoi(s: string): Option<int> {
    if s != "" && s[0] == '+' then (if s[1..] != "" && s[1] == '-' then None else ParseInt(s[1..])) else ParseInt(s)
  }

  /** "min,max" with blanks allowed around each. */
  function ParsePortRange(raw: string): Option<(int, int)> {
    var parts := SplitComma(raw);
    if |parts| != 2 then None
    else
      match (Atoi(TrimSpace(parts[0])), Atoi(TrimSpace(parts[1])))
      case (Some(low), Some(high)) => if low < 1 || high > MaxPort || low > high then None else Some((low, high))
      case _ => None
  }

  function RangeText(low: int, high: int): string {
    Itoa(low) + "," + Itoa(high)
  }

  // ---- Lowering ----

  datatype LowerProblem =
    | BlockWithId | DuplicateBlock | UnknownBlock | OnlyCalls | LegacySetting | UnknownSetting | SetTwice
    | WrongCount | ExpectedString | ExpectedBool | ExpectedInt | IntOutOfRange | BadProfile

  datatype KiveError = Syntax(error: ConfError) | Lowering(problem: LowerProblem, pos: Pos)

  function AsString(v: Value): Result<string, KiveError> {
    match v
    case StringLit(s, _) => Ok(s)
    case IdentLit(n, _) => Ok(n)
    case _ => Err(Lowering(ExpectedString, ValuePos(v)))
  }

  function AsBool(v: Value): Result<bool, KiveError> {
    if v.BoolLit? then Ok(v.flag) else Err(Lowering(ExpectedBool, ValuePos(v)))
  }

  /** The lower limit is the complement of zero, which is -1. */
  function LiteralInt(v: Value): Result<int, KiveError>
    requires v.NumberLit?
  {
    if v.number.Float? then Err(Lowering(ExpectedInt, v.at))
    else if v.number.value < -1 then Err(Lowering(IntOutOfRange, v.at))
    else Ok(v.number.value)
  }

  function AsInt(v: Value): Result<int, KiveError> {
    match v
    case NumberLit(_, _, _) => LiteralInt(v)
    case StringLit(s, at) =>
      (match Atoi(TrimSpace(s)) case Some(n) => Ok(n) case None => Err(Lowering(ExpectedInt, at)))
    case _ => Err(Lowering(ExpectedInt, ValuePos(v)))
  }

  function PortArg(v: Value): Result<int, KiveError> {
    if v.NumberLit? then LiteralInt(v) else Err(Lowering(ExpectedInt, ValuePos(v)))
  }

  function AsStrings(vs: seq<Value>): Result<seq<string>, KiveError> {
    if vs == [] then Ok([])
    else
      var s :- AsString(vs[0]);
      var rest :- AsStrings(vs[1..]);
      Ok([s] + rest)
  }

  function Single(c: Call): Result<Value, KiveError> {
    if |c.args| != 1 then Err(Lowering(WrongCount, c.namePos)) else Ok(c.args[0])
  }

  function SingleString(c: Call): Result<string, KiveError> {
    var v :- Single(c);
    AsString(v)
  }

  function SingleBool(c: Call): Result<bool, KiveError> {
    var v :- Single(c);
    AsBool(v)
  }

  function SingleInt(c: Call): Result<int, KiveError> {
    var v :- Single(c);
    AsInt(v)
  }

  function PortRangeArg(c: Call): Result<string, KiveError> {
    if |c.args| != 2 then Err(Lowering(WrongCount, c.namePos))
    else
      var low :- PortArg(c.args[0]);
      var high :- PortArg(c.args[1]);
      Ok(RangeText(low, high))
  }

  function ProfileArg(c: Call): Result<string, KiveError> {
    var s :- SingleString(c);
    match SanitizeProfile(s)
    case Some(p) => Ok(p)
    case None => Err(Lowering(BadProfile, NoPos))
  }

  function Wrap<T>(r: Result<T, KiveError>, f: T -> Datum): Result<Datum, KiveError> {
    match r
    case Ok(v) => Ok(f(v))
    case Err(e) => Err(e)
  }

  /** What a call gives the setting it names. */
  function ReadArg(k: Setting, c: Call): (r: Result<Datum, KiveError>)
    ensures r.Ok? ==> Fits(k, r.value)
  {
    match k
    case Ports => Wrap(PortRangeArg(c), s => Text(s))
    case SignerTrust => Wrap(AsStrings(c.args), ss => List(ss))
    case UseSudo | Promotion | Iptables => Wrap(SingleBool(c), b => Flag(b))
    case Observe => Wrap(SingleBool(c), b => Maybe(Some(b)))
    case SshPort | RunCount | RunDays | BackupCount | HealthWait | HealthPoll | MaxSyncs | CertsTtl | CertsBuffer =>
      Wrap(SingleInt(c), n => Num(n))
    case Profile => Wrap(ProfileArg(c), s => Text(s))
    case Timezone => Wrap(SingleString(c), s => Text(TrimSpace(s)))
    case _ => Wrap(SingleString(c), s => Text(s))
  }

  /** The struct being filled, the settings already made, and the blocks already seen. */
  datatype Lowered = Lowered(conf: KiveConf, present: set<Setting>, seen: set<string>)

  function LowerCall(block: string, c: Call, s: Lowered): Result<Lowered, KiveError> {
    match Named(block, c.name)
    case None => Err(Lowering(UnknownSetting, c.namePos))
    case Some(k) =>
      if k in s.present then Err(Lowering(SetTwice, c.namePos))
      else
        var d :- ReadArg(k, c);
        Ok(s.(conf := Put(s.conf, k, d), present := s.present + {k}))
  }

  function LowerBody(block: string, body: seq<Stmt>, s: Lowered): Result<Lowered, KiveError> {
    if body == [] then Ok(s)
    else if !body[0].CallStmt? then Err(Lowering(OnlyCalls, StmtPos(body[0])))
    else
      var t :- LowerCall(block, body[0].call, s);
      LowerBody(block, body[1..], t)
  }

  function LowerStmt(st: Stmt, s: Lowered): Result<Lowered, KiveError> {
    match st
    case Block(name, id, body, pos) =>
      if id != "" then Err(Lowering(BlockWithId, pos))
      else if name in s.seen then Err(Lowering(DuplicateBlock, pos))
      else if !KnownBlock(name) then Err(Lowering(UnknownBlock, pos))
      else LowerBody(name, body, s.(seen := s.seen + {name}))
    case CallStmt(c) =>
      if Legacy(c.name) then Err(Lowering(LegacySetting, c.namePos)) else LowerCall("", c, s)
  }

  function LowerStmts(ss: seq<Stmt>, s: Lowered): Result<Lowered, KiveError> {
    if ss == [] then Ok(s)
    else
      var t :- LowerStmt(ss[0], s);
      LowerStmts(ss[1..], t)
  }

  const Nothing: Lowered := Lowered(Zero, {}, {})

  /** The configuration and the settings present in the text. */
  function ParseText(src: string): Result<(KiveConf, set<Setting>), KiveError> {
    match ConfParser.Parse(src)
    case Err(e) => Err(Syntax(e))
    case Ok(f) =>
      var s :- LowerStmts(f.stmts, Nothing);
      Ok((s.conf, s.present))
  }

  method LowerBlock(block: string, body: seq<Stmt>, s: Lowered) returns (r: Result<Lowered, KiveError>)
    ensures r == LowerBody(block, body, s)
  {
    hide LowerCall;
    var t := s;
    assert body[0..] == body;
    for j := 0 to |body|
      invariant LowerBody(block, body, s) == LowerBody(block, body[j..], t)
    {
      assert body[j..][1..] == body[j + 1..];
      if !body[j].CallStmt? {
        return Err(Lowering(OnlyCalls, StmtPos(body[j])));
      }
      var more := LowerCall(block, body[j].call, t);
      if more.Err? {
        return more;
      }
      t := more.value;
    }
    return Ok(t);
  }

  method ParseKiveConf(src: string) returns (r: Result<(KiveConf, set<Setting>), KiveError>)
    ensures r == ParseText(src)
  {
    hide ConfParser.Parse, LowerBody, LowerCall, KnownBlock, Legacy;
    var parsed := ConfParserImpl.Parse(src);
    if parsed.Err? {
      return Err(Syntax(parsed.error));
    }
    var ss := parsed.value.stmts;
    var s := Nothing;
    assert ss[0..] == ss;
    for k := 0 to |ss|
      invariant LowerStmts(ss, Nothing) == LowerStmts(ss[k..], s)
    {
      assert ss[k..][1..] == ss[k + 1..];
      var more: Result<Lowered, KiveError>;
      match ss[k] {
        case Block(name, id, body, pos) =>
          if id != "" {
            return Err(Lowering(BlockWithId, pos));
          }
          if name in s.seen {
            return Err(Lowering(DuplicateBlock, pos));
          }
          if !KnownBlock(name) {
            return Err(Lowering(UnknownBlock, pos));
          }
          more := LowerBlock(name, body, s.(seen := s.seen + {name}));
        case CallStmt(c) =>
          if Legacy(c.name) {
            return Err(Lowering(LegacySetting, c.namePos));
          }
          more := LowerCall("", c, s);
      }
      if more.Err? {
        return Err(more.error);
      }
      s := more.value;
    }
    return Ok((s.conf, s.present));
  }

  // ---- Printing ----

  /** A setting is printed, and what is printed for it. */
  predicate Shown(c: KiveConf, k: Setting) {
    match k
    case UseSudo | RunCount | RunDays | BackupCount | HealthWait | HealthPoll => true
    case CertsTtl | CertsBuffer | Iptables | Timezone => true
    case SshPort => c[k] != Num(0)
    case MaxSyncs => c[k].n >= 1
    case SignerTrust => c[k] != List([])
    case Promotion => c[k].on
    case Observe => c[k] == Maybe(Some(false))
    case Ports => c[k] != Text("") && ParsePortRange(c[k].text).Some?
    case _ => c[k] != Text("")
  }

  function Printed(c: KiveConf, k: Setting): Datum
    requires Shown(c, k)
  {
    match k
    case CertsTtl => if c[k] == Num(0) then Num(DefaultCertsTTL) else c[k]
    case Timezone => Text(ResolveTimezone(c[k].text))
    case Ports => var r := ParsePortRange(c[k].text).value; Pair(r.0, r.1)
    case Observe => Flag(false)
    case _ => c[k]
  }

  function IntLit(n: int): Value {
    NumberLit(Itoa(n), Integer(n), NoPos)
  }

  function StringArgs(items: seq<string>): (r: seq<Value>)
    ensures |r| == |items|
  {
    if items == [] then [] else [StringLit(items[0], NoPos)] + StringArgs(items[1..])
  }

  function Args(d: Datum): seq<Value> {
    match d
    case Text(s) => [StringLit(s, NoPos)]
    case Num(n) => [IntLit(n)]
    case Flag(b) => [BoolLit(b, NoPos)]
    case List(items) => StringArgs(items)
    case Maybe(b) => if b.Some? then [BoolLit(b.value, NoPos)] else []
    case Pair(low, high) => [IntLit(low), IntLit(high)]
  }

  function SettingCall(c: KiveConf, k: Setting): Stmt
    requires Shown(c, k)
  {
    CallStmt(Call(NameOf(k), Args(Printed(c, k)), NoPos, false))
  }

  function BodyStmts(c: KiveConf, ks: seq<Setting>): seq<Stmt> {
    if ks == [] then []
    else (if Shown(c, ks[0]) then [SettingCall(c, ks[0])] else []) + BodyStmts(c, ks[1..])
  }

  datatype Section = Top(k: Setting) | Group(block: string, ks: seq<Setting>)

  /** The order in which the file is written. */
  const Layout: seq<Section> :=
    [Top(Timezone),
     Group("ssh", [UseSudo, SshUser, SshKey, SshPort, StrictHostKey]),
     Group("log_config", [LogFormat, RunCount, RunDays]),
     Group("backup", [BackupCount]),
     Group("health", [HealthWait, HealthPoll]),
     Group("deploy", [MaxSyncs]),
     Group("interpreters", [PythonPath, JsPath, RubyPath, BashPath]),
     Group("job_signer", [SignerCa, SignerTrust]),
     Group("features", [Promotion, Observe]),
     Top(Ports), Top(CertsTtl), Top(CertsBuffer), Top(Iptables), Top(Profile)]

  /** A block with nothing to say is left out. */
  function SectionStmts(c: KiveConf, sec: Section): seq<Stmt> {
    match sec
    case Top(k) => BodyStmts(c, [k])
    case Group(block, ks) => if BodyStmts(c, ks) == [] then [] else [Stmt.Block(block, "", BodyStmts(c, ks), NoPos)]
  }

  function FileStmts(c: KiveConf, secs: seq<Section>): seq<Stmt> {
    if secs == [] then [] else SectionStmts(c, secs[0]) + FileStmts(c, secs[1..])
  }

  function EmitText(c: KiveConf): string {
    ConfEmit.EmitText(File(0, FileStmts(c, Layout)), "")
  }
}
