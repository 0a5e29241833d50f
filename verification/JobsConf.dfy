/** bucket.jobs.conf: per-job string settings lowered from, and printed as, `job <name> { ... }` blocks
    (bucket/jobs_conf_block.go). */
module JobsConf {
  import opened Prelude
  import opened ConfText
  import opened ConfAst
  import opened StringOrder
  import ConfParser
  import ConfParserImpl
  import ConfEmit
  import ConfEmitImpl
  import ConfRoundTrip

  type Settings = map<string, string>
  type Jobs = map<string, Settings>

  datatype LowerProblem = ExpectedJobBlock | MissingName | OnlyCalls | ExpectedOneValue | ExpectedString

  datatype JobsError = Syntax(error: ConfError) | Lowering(problem: LowerProblem, pos: Pos)

  /** Strings and bare identifiers, and numbers and booleans by their text. */
  function SettingText(v: Value): Option<string> {
    match v
    case StringLit(s, _) => Some(s)
    case IdentLit(n, _) => Some(n)
    case NumberLit(t, _, _) => Some(t)
    case BoolLit(b, _) => Some(if b then "true" else "false")
    case CallValue(_) => None
  }

  function LowerSetting(s: Stmt, settings: Settings): Result<Settings, JobsError> {
    if !s.CallStmt? then Err(Lowering(OnlyCalls, StmtPos(s)))
    else if |s.call.args| != 1 then Err(Lowering(ExpectedOneValue, s.call.namePos))
    else
      match SettingText(s.call.args[0])
      case None => Err(Lowering(ExpectedString, ValuePos(s.call.args[0])))
      case Some(t) => Ok(settings[s.call.name := t])
  }

  function LowerSettings(body: seq<Stmt>, settings: Settings): Result<Settings, JobsError> {
    if body == [] then Ok(settings)
    else
      var more :- LowerSetting(body[0], settings);
      LowerSettings(body[1..], more)
  }

  function LowerJob(s: Stmt, jobs: Jobs): Result<Jobs, JobsError> {
    if !s.Block? || s.name != "job" then Err(Lowering(ExpectedJobBlock, StmtPos(s)))
    else if s.id == "" then Err(Lowering(MissingName, s.namePos))
    else
      var settings :- LowerSettings(s.body, map[]);
      Ok(jobs[s.id := settings])
  }

  function LowerJobs(ss: seq<Stmt>, jobs: Jobs): Result<Jobs, JobsError> {
    if ss == [] then Ok(jobs)
    else
      var more :- LowerJob(ss[0], jobs);
      LowerJobs(ss[1..], more)
  }

  function ParseText(src: string): Result<Jobs, JobsError> {
    match ConfParser.Parse(src)
    case Err(e) => Err(Syntax(e))
    case Ok(f) => LowerJobs(f.stmts, map[])
  }

  // ---- Printing ----

  function SettingStmt(key: string, value: string): Stmt {
    CallStmt(Call(key, [StringLit(value, NoPos)], NoPos, false))
  }

  function SettingStmts(keys: seq<string>, settings: Settings): (r: seq<Stmt>)
    requires forall k :: k in keys ==> k in settings
    ensures |r| == |keys|
  {
    if keys == [] then [] else [SettingStmt(keys[0], settings[keys[0]])] + SettingStmts(keys[1..], settings)
  }

  ghost function JobStmt(name: string, settings: Settings): Stmt {
    Block("job", name, SettingStmts(Sorted(settings.Keys), settings), NoPos)
  }

  ghost function JobStmts(names: seq<string>, jobs: Jobs): (r: seq<Stmt>)
    requires forall n :: n in names ==> n in jobs
    ensures |r| == |names|
  {
    if names == [] then [] else [JobStmt(names[0], jobs[names[0]])] + JobStmts(names[1..], jobs)
  }

  ghost function JobsFile(jobs: Jobs): File {
    File(0, JobStmts(Sorted(jobs.Keys), jobs))
  }

  ghost function EmitText(jobs: Jobs): string {
    ConfEmit.EmitText(JobsFile(jobs), "")
  }

  // ---- The stateful forms ----

  method ParseBucketJobsConf(src: string) returns (r: Result<Jobs, JobsError>)
    ensures r == ParseText(src)
  {
    hide ConfParser.Parse, LowerSetting;
    var parsed := ConfParserImpl.Parse(src);
    if parsed.Err? {
      return Err(Syntax(parsed.error));
    }
    var ss := parsed.value.stmts;
    var out: Jobs := map[];
    assert ss[0..] == ss;
    for k := 0 to |ss|
      invariant LowerJobs(ss, map[]) == LowerJobs(ss[k..], out)
    {
      assert ss[k..][1..] == ss[k + 1..];
      var s := ss[k];
      if !s.Block? || s.name != "job" {
        return Err(Lowering(ExpectedJobBlock, StmtPos(s)));
      }
      if s.id == "" {
        return Err(Lowering(MissingName, s.namePos));
      }
      var settings: Settings := map[];
      assert s.body[0..] == s.body;
      for j := 0 to |s.body|
        invariant LowerSettings(s.body, map[]) == LowerSettings(s.body[j..], settings)
      {
        assert s.body[j..][1..] == s.body[j + 1..];
        var more := LowerSetting(s.body[j], settings);
        if more.Err? {
          return Err(more.error);
        }
        settings := more.value;
      }
      assert LowerJob(s, out) == Ok(out[s.id := settings]);
      out := out[s.id := settings];
    }
    return Ok(out);
  }

  lemma {:induction false} SettingStmtsSnoc(keys: seq<string>, k: string, settings: Settings)
    requires k in settings && forall x :: x in keys ==> x in settings
    ensures SettingStmts(keys + [k], settings) == SettingStmts(keys, settings) + [SettingStmt(k, settings[k])]
  {
    if keys == [] {
      assert keys + [k] == [k];
      assert SettingStmts([k][1..], settings) == [];
    } else {
      assert (keys + [k])[1..] == keys[1..] + [k];
      SettingStmtsSnoc(keys[1..], k, settings);
    }
  }

  lemma {:induction false} JobStmtsSnoc(names: seq<string>, n: string, jobs: Jobs)
    requires n in jobs && forall x :: x in names ==> x in jobs
    ensures JobStmts(names + [n], jobs) == JobStmts(names, jobs) + [JobStmt(n, jobs[n])]
  {
    hide JobStmt;
    if names == [] {
      assert names + [n] == [n];
      assert JobStmts([n][1..], jobs) == [];
    } else {
      assert (names + [n])[1..] == names[1..] + [n];
      JobStmtsSnoc(names[1..], n, jobs);
    }
  }

  method JobBody(settings: Settings) returns (body: seq<Stmt>)
    ensures body == SettingStmts(Sorted(settings.Keys), settings)
  {
    hide SettingStmt, Sorted;
    var keys := SortedKeys(settings.Keys);
    body := [];
    assert keys[..0] == [];
    NoSettingStmts(settings);
    for j := 0 to |keys|
      invariant body == SettingStmts(keys[..j], settings)
    {
      SettingStmtsSnoc(keys[..j], keys[j], settings);
      assert keys[..j + 1] == keys[..j] + [keys[j]];
      body := body + [SettingStmt(keys[j], settings[keys[j]])];
    }
    assert keys[..|keys|] == keys;
  }

  lemma NoSettingStmts(settings: Settings)
    ensures SettingStmts([], settings) == []
  {
  }

  method EmitBucketJobsConf(jobs: Jobs) returns (text: string)
    ensures text == EmitText(jobs)
  {
    hide Sorted, SettingStmts, ConfEmit.EmitText;
    var names := SortedKeys(jobs.Keys);
    var stmts: seq<Stmt> := [];
    assert names[..0] == [];
    for k := 0 to |names|
      invariant stmts == JobStmts(names[..k], jobs)
    {
      var body := JobBody(jobs[names[k]]);
      JobStmtsSnoc(names[..k], names[k], jobs);
      assert names[..k + 1] == names[..k] + [names[k]];
      stmts := stmts + [Block("job", names[k], body, NoPos)];
    }
    assert names[..|names|] == names;
    text := ConfEmitImpl.Emit(File(0, stmts), "");
  }

  // ---- The round trip ----

  ghost predicate SettingsOk(settings: Settings) {
    forall k :: k in settings ==> IsIdent(k) && NoNul(settings[k]) && ByteLen(settings[k]) <= MaxStringBytes
  }

  /** Names and keys are identifiers, and values fit a string literal. */
  ghost predicate JobsOk(jobs: Jobs) {
    forall n :: n in jobs ==> IsIdent(n) && SettingsOk(jobs[n])
  }

  lemma SettingOk(key: string, value: string)
    requires IsIdent(key) && NoNul(value) && ByteLen(value) <= MaxStringBytes
    ensures StmtOk(SettingStmt(key, value), 1)
  {
    hide IsIdent, NoNul, ByteLen;
    var args := [StringLit(value, NoPos)];
    assert ValueOk(args[0], 2);
    assert ValuesOk(args[1..], 2);
    assert CallOk(Call(key, args, NoPos, false), 1);
  }

  lemma {:induction false} SettingStmtsOk(keys: seq<string>, settings: Settings)
    requires SettingsOk(settings) && forall k :: k in keys ==> k in settings
    ensures StmtsOk(SettingStmts(keys, settings), 1)
  {
    hide IsIdent, NoNul, ByteLen, SettingStmt, StmtOk;
    if keys != [] {
      SettingOk(keys[0], settings[keys[0]]);
      SettingStmtsOk(keys[1..], settings);
      assert SettingStmts(keys, settings)[1..] == SettingStmts(keys[1..], settings);
    }
  }

  lemma JobStmtOk(name: string, settings: Settings)
    requires IsIdent(name) && SettingsOk(settings)
    ensures StmtOk(JobStmt(name, settings), 0)
  {
    hide ByteLen, StmtsOk, Sorted, SettingStmts, SettingsOk;
    SettingStmtsOk(Sorted(settings.Keys), settings);
    WordBytes("job");
  }

  lemma {:induction false} JobStmtsOk(names: seq<string>, jobs: Jobs)
    requires JobsOk(jobs) && forall n :: n in names ==> n in jobs
    ensures StmtsOk(JobStmts(names, jobs), 0)
  {
    hide JobStmt, IsIdent, SettingsOk, StmtOk;
    if names != [] {
      JobStmtOk(names[0], jobs[names[0]]);
      JobStmtsOk(names[1..], jobs);
    }
  }

  /** The settings listed by these keys. */
  ghost function Restrict<V>(m: map<string, V>, keys: seq<string>): map<string, V> {
    map k | k in keys && k in m :: m[k]
  }

  lemma RestrictStep<V>(m: map<string, V>, keys: seq<string>, acc: map<string, V>)
    requires keys != [] && keys[0] in m
    ensures acc[keys[0] := m[keys[0]]] + Restrict(m, keys[1..]) == acc + Restrict(m, keys)
  {
    assert keys == [keys[0]] + keys[1..];
  }

  lemma LowersSetting(s: Stmt, key: string, value: string, acc: Settings)
    requires EraseStmt(s) == EraseStmt(SettingStmt(key, value))
    ensures LowerSetting(s, acc) == Ok(acc[key := value])
  {
    assert s.CallStmt? && s.call.name == key;
    SingleString(s.call.args, value);
  }

  lemma {:induction false} LowerSettingStmts(body: seq<Stmt>, keys: seq<string>, settings: Settings, acc: Settings)
    requires forall k :: k in keys ==> k in settings
    requires EraseStmts(body) == EraseStmts(SettingStmts(keys, settings))
    ensures LowerSettings(body, acc) == Ok(acc + Restrict(settings, keys))
    decreases |keys|
  {
    hide EraseStmts, LowerSetting, SettingStmt, EraseStmt;
    if keys == [] {
      assert acc + Restrict(settings, keys) == acc;
    } else {
      var k := keys[0];
      EraseHead(body, SettingStmt(k, settings[k]), SettingStmts(keys[1..], settings));
      LowersSetting(body[0], k, settings[k], acc);
      LowerSettingStmts(body[1..], keys[1..], settings, acc[k := settings[k]]);
      RestrictStep(settings, keys, acc);
    }
  }

  lemma SingleString(args: seq<Value>, value: string)
    requires EraseValues(args) == EraseValues([StringLit(value, NoPos)])
    ensures |args| == 1 && args[0].StringLit? && args[0].value == value
  {
    assert |args| == 1;
    assert EraseValues(args)[0] == EraseValue(args[0]);
    assert EraseValues([StringLit(value, NoPos)])[0] == StringLit(value, NoPos);
  }

  lemma LowersJob(s: Stmt, name: string, settings: Settings, acc: Jobs)
    requires name != "" && EraseStmt(s) == EraseStmt(JobStmt(name, settings))
    ensures LowerJob(s, acc) == Ok(acc[name := settings])
  {
    hide LowerSettings, SettingStmts, Sorted, EraseStmts;
    var keys := Sorted(settings.Keys);
    LowerSettingStmts(s.body, keys, settings, map[]);
    assert map[] + Restrict(settings, keys) == settings;
  }

  lemma {:induction false} LowerJobStmts(ss: seq<Stmt>, names: seq<string>, jobs: Jobs, acc: Jobs)
    requires forall n :: n in names ==> n in jobs && n != ""
    requires EraseStmts(ss) == EraseStmts(JobStmts(names, jobs))
    ensures LowerJobs(ss, acc) == Ok(acc + Restrict(jobs, names))
    decreases |names|
  {
    hide EraseStmts, EraseStmt, LowerJob, JobStmt;
    if names == [] {
      assert acc + Restrict(jobs, names) == acc;
    } else {
      var n := names[0];
      EraseHead(ss, JobStmt(n, jobs[n]), JobStmts(names[1..], jobs));
      LowersJob(ss[0], n, jobs[n], acc);
      LowerJobStmts(ss[1..], names[1..], jobs, acc[n := jobs[n]]);
      RestrictStep(jobs, names, acc);
    }
  }

  /** Settings maps survive printing and parsing unchanged. */
  lemma JobsRoundTrip(jobs: Jobs)
    requires JobsOk(jobs)
    requires CountStmts(JobsFile(jobs).stmts) <= MaxStatements && ByteLen(EmitText(jobs)) <= MaxSourceBytes
    ensures ParseText(EmitText(jobs)) == Ok(jobs)
  {
    hide ConfParser.Parse, ConfEmit.EmitText, JobStmts, LowerJobs, Sorted, ByteLen, StmtsOk, CountStmts, SettingsOk,
         EraseStmts;
    var f, names := JobsFile(jobs), Sorted(jobs.Keys);
    JobStmtsOk(names, jobs);
    ConfRoundTrip.RoundTrip(f, "");
    var g := ConfParser.Parse(EmitText(jobs)).value;
    LowerJobStmts(g.stmts, names, jobs, map[]);
    assert map[] + Restrict(jobs, names) == jobs;
  }

  // ---- What is accepted ----

  /** One call with one argument that is not itself a call. */
  predicate IsSetting(s: Stmt) {
    s.CallStmt? && |s.call.args| == 1 && !s.call.args[0].CallValue?
  }

  predicate IsJob(s: Stmt) {
    s.Block? && s.name == "job" && s.id != "" && forall t :: t in s.body ==> IsSetting(t)
  }

  /** The text a value stands for as a setting. */
  predicate Shows(v: Value, t: string) {
    || (v.StringLit? && v.value == t)
    || (v.IdentLit? && v.name == t)
    || (v.NumberLit? && v.text == t)
    || (v.BoolLit? && t == if v.flag then "true" else "false")
  }

  predicate Sets(s: Stmt, k: string) {
    s.CallStmt? && s.call.name == k
  }

  predicate Names(s: Stmt, n: string) {
    s.Block? && s.id == n
  }

  /** The j-th call, and no later one, sets `k`, and to this text. */
  ghost predicate SaysAt(body: seq<Stmt>, k: string, t: string, j: nat) {
    && j < |body| && Sets(body[j], k) && IsSetting(body[j]) && Shows(body[j].call.args[0], t)
    && forall i :: j < i < |body| ==> !Sets(body[i], k)
  }

  ghost predicate Says(body: seq<Stmt>, k: string, t: string) {
    exists j: nat :: SaysAt(body, k, t, j)
  }

  /** The i-th block, and no later one, names the job. */
  ghost predicate LastNamed(ss: seq<Stmt>, n: string, i: nat) {
    i < |ss| && Names(ss[i], n) && forall k :: i < k < |ss| ==> !Names(ss[k], n)
  }

  lemma {:induction false} SettingsSnoc(body: seq<Stmt>, s: Stmt, acc: Settings)
    ensures LowerSettings(body + [s], acc) ==
            match LowerSettings(body, acc) { case Ok(more) => LowerSetting(s, more) case Err(e) => Err(e) }
  {
    hide LowerSetting;
    if body == [] {
      assert body + [s] == [s];
      assert [s][1..] == [];
    } else {
      assert (body + [s])[0] == body[0] && (body + [s])[1..] == body[1..] + [s];
      if LowerSetting(body[0], acc).Ok? {
        SettingsSnoc(body[1..], s, LowerSetting(body[0], acc).value);
      }
    }
  }

  lemma SaysSnoc(body: seq<Stmt>, s: Stmt, k: string, t: string)
    ensures Says(body + [s], k, t) <==>
            if Sets(s, k) then IsSetting(s) && Shows(s.call.args[0], t) else Says(body, k, t)
  {
    hide Shows;
    var all := body + [s];
    assert all[|body|] == s;
    if Sets(s, k) {
      assert IsSetting(s) && Shows(s.call.args[0], t) ==> SaysAt(all, k, t, |body|);
      assert forall j: nat :: SaysAt(all, k, t, j) ==> j == |body|;
    } else {
      if j: nat :| SaysAt(body, k, t, j) {
        assert SaysAt(all, k, t, j);
      }
      if j: nat :| SaysAt(all, k, t, j) {
        assert j < |body| && forall i :: 0 <= i < |body| ==> all[i] == body[i];
        assert SaysAt(body, k, t, j);
      }
    }
  }

  lemma OneSetting(s: Stmt, acc: Settings)
    ensures LowerSetting(s, acc).Ok? <==> IsSetting(s)
    ensures IsSetting(s) ==>
              && LowerSetting(s, acc).value.Keys == acc.Keys + {s.call.name}
              && (forall k :: k in acc && k != s.call.name ==> LowerSetting(s, acc).value[k] == acc[k])
              && (forall t :: LowerSetting(s, acc).value[s.call.name] == t <==> Shows(s.call.args[0], t))
  {
  }

  /** A body is accepted exactly when it is settings only; each one named has the text of its last call. */
  lemma {:induction false} SettingsExactly(body: seq<Stmt>)
    ensures LowerSettings(body, map[]).Ok? <==> forall s :: s in body ==> IsSetting(s)
    ensures LowerSettings(body, map[]).Ok? ==>
              forall k, t :: (k in LowerSettings(body, map[]).value && LowerSettings(body, map[]).value[k] == t)
                             <==> Says(body, k, t)
    decreases |body|
  {
    hide LowerSettings, LowerSetting, IsSetting, Shows, Says, Sets;
    if body == [] {
      NoSettings();
    } else {
      var front, s := body[..|body| - 1], body[|body| - 1];
      assert body == front + [s];
      SettingsExactly(front);
      SettingsSnoc(front, s, map[]);
      if LowerSettings(front, map[]).Ok? {
        var more := LowerSettings(front, map[]).value;
        OneSetting(s, more);
        if IsSetting(s) {
          IsSettingSets(s);
          var r := LowerSetting(s, more).value;
          forall k, t
            ensures (k in r && r[k] == t) <==> Says(body, k, t)
          {
            SaysSnoc(front, s, k, t);
          }
        }
      }
    }
  }

  lemma IsSettingSets(s: Stmt)
    requires IsSetting(s)
    ensures s.CallStmt? && |s.call.args| == 1 && forall k :: Sets(s, k) <==> k == s.call.name
  {
  }

  lemma NoSettings()
    ensures LowerSettings([], map[]) == Ok(map[])
    ensures forall k, t :: !Says([], k, t)
  {
  }

  lemma {:induction false} JobsSnoc(ss: seq<Stmt>, s: Stmt, acc: Jobs)
    ensures LowerJobs(ss + [s], acc) ==
            match LowerJobs(ss, acc) { case Ok(more) => LowerJob(s, more) case Err(e) => Err(e) }
  {
    hide LowerJob;
    if ss == [] {
      assert ss + [s] == [s];
      assert [s][1..] == [];
    } else {
      assert (ss + [s])[0] == ss[0] && (ss + [s])[1..] == ss[1..] + [s];
      if LowerJob(ss[0], acc).Ok? {
        JobsSnoc(ss[1..], s, LowerJob(ss[0], acc).value);
      }
    }
  }

  lemma OneJob(s: Stmt, acc: Jobs)
    ensures LowerJob(s, acc).Ok? <==> IsJob(s)
    ensures IsJob(s) ==>
              && s.Block? && LowerSettings(s.body, map[]).Ok?
              && LowerJob(s, acc) == Ok(acc[s.id := LowerSettings(s.body, map[]).value])
              && forall n :: Names(s, n) <==> n == s.id
  {
    hide LowerSettings, IsSetting;
    if s.Block? {
      SettingsExactly(s.body);
    }
  }

  /** The job has the settings of its last block. */
  ghost predicate Has(ss: seq<Stmt>, n: string, settings: Settings) {
    exists i: nat :: LastNamed(ss, n, i) && LowerSettings(ss[i].body, map[]) == Ok(settings)
  }

  lemma HasSnoc(ss: seq<Stmt>, s: Stmt, n: string, settings: Settings)
    ensures Has(ss + [s], n, settings) <==>
            if Names(s, n) then LowerSettings(s.body, map[]) == Ok(settings) else Has(ss, n, settings)
  {
    hide LowerSettings;
    var all := ss + [s];
    assert all[|ss|] == s;
    if Names(s, n) {
      assert LastNamed(all, n, |ss|);
      assert forall i: nat :: LastNamed(all, n, i) ==> i == |ss|;
    } else {
      if i: nat :| LastNamed(ss, n, i) && LowerSettings(ss[i].body, map[]) == Ok(settings) {
        assert LastNamed(all, n, i);
        assert all[i] == ss[i];
      }
      if i: nat :| LastNamed(all, n, i) && LowerSettings(all[i].body, map[]) == Ok(settings) {
        assert i < |ss| && forall k :: 0 <= k < |ss| ==> all[k] == ss[k];
        assert LastNamed(ss, n, i);
      }
    }
  }

  lemma {:induction false} JobsExactly(ss: seq<Stmt>)
    ensures LowerJobs(ss, map[]).Ok? <==> forall s :: s in ss ==> IsJob(s)
    ensures LowerJobs(ss, map[]).Ok? ==>
              forall n, v :: (n in LowerJobs(ss, map[]).value && LowerJobs(ss, map[]).value[n] == v) <==> Has(ss, n, v)
    decreases |ss|
  {
    hide LowerJobs, LowerJob, LowerSettings, IsJob, Has, Names;
    if ss == [] {
      NoJobs();
    } else {
      var front, s := ss[..|ss| - 1], ss[|ss| - 1];
      assert ss == front + [s];
      JobsExactly(front);
      JobsSnoc(front, s, map[]);
      if LowerJobs(front, map[]).Ok? {
        var more := LowerJobs(front, map[]).value;
        OneJob(s, more);
        if IsJob(s) {
          forall n, v
            ensures (n in LowerJob(s, more).value && LowerJob(s, more).value[n] == v) <==> Has(ss, n, v)
          {
            HasSnoc(front, s, n, v);
          }
        }
      }
    }
  }

  lemma NoJobs()
    ensures LowerJobs([], map[]) == Ok(map[])
    ensures forall n, v :: !Has([], n, v)
  {
  }

  /** A file is accepted exactly when it parses and holds nothing but named job blocks of settings; a job is then
      exactly the last block of its name, and each of its settings exactly the text of the last call of it there. */
  lemma AcceptsExactly(src: string)
    ensures ParseText(src).Ok? <==>
            ConfParser.Parse(src).Ok? && forall s :: s in ConfParser.Parse(src).value.stmts ==> IsJob(s)
    ensures ParseText(src).Ok? ==>
              var ss, r := ConfParser.Parse(src).value.stmts, ParseText(src).value;
              && (forall n :: n in r <==> exists i: nat :: LastNamed(ss, n, i))
              && forall n, i: nat | LastNamed(ss, n, i) && n in r ::
                   forall k, t :: (k in r[n] && r[n][k] == t) <==> Says(ss[i].body, k, t)
  {
    hide ConfParser.Parse, LowerJobs, LowerSettings, IsJob, LastNamed, Says, Has;
    if ConfParser.Parse(src).Ok? {
      var ss := ConfParser.Parse(src).value.stmts;
      JobsExactly(ss);
      if LowerJobs(ss, map[]).Ok? {
        var r := LowerJobs(ss, map[]).value;
        forall n, i: nat | LastNamed(ss, n, i)
          ensures n in r && i < |ss| && ss[i].Block? && LowerSettings(ss[i].body, map[]) == Ok(r[n])
        {
          NamedHas(ss, n, i);
        }
        forall n | n in r
          ensures exists i: nat :: LastNamed(ss, n, i)
        {
          assert Has(ss, n, r[n]);
          HasNamed(ss, n, r[n]);
        }
        forall n, i: nat | LastNamed(ss, n, i) && n in r
          ensures forall k, t :: (k in r[n] && r[n][k] == t) <==> Says(ss[i].body, k, t)
        {
          SettingsExactly(ss[i].body);
        }
      }
    }
  }

  lemma HasNamed(ss: seq<Stmt>, n: string, v: Settings)
    requires Has(ss, n, v)
    ensures exists i: nat :: LastNamed(ss, n, i)
  {
    hide LastNamed, LowerSettings;
  }

  lemma NamedHas(ss: seq<Stmt>, n: string, i: nat)
    requires LowerJobs(ss, map[]).Ok? && LastNamed(ss, n, i)
    ensures var r := LowerJobs(ss, map[]).value;
            n in r && i < |ss| && ss[i].Block? && LowerSettings(ss[i].body, map[]) == Ok(r[n])
  {
    hide LowerJobs, LowerSettings, IsSetting;
    JobsExactly(ss);
    assert IsJob(ss[i]);
    SettingsExactly(ss[i].body);
    var v := LowerSettings(ss[i].body, map[]).value;
    assert Has(ss, n, v);
  }
}
