/** Running a hook batch by batch, and the rule by which one allocation of a run knows it is the one
    (hooks/batch.go, hooks/run.go, hooks/kive.py, hooks/sdk/go/kivehook/kivehook.go). */
module OneShot {
  import opened Prelude
  import opened Batches
  import opened ConfNumber
  import opened Strings

  /** An environment; where two settings of a variable meet, the later one wins. */
  type Env = map<string, string>

  function Get(env: Env, key: string, default: string): string {
    if key in env then env[key] else default
  }

  // ---- The environment of a hook ----

  datatype BatchContext = BatchContext(
    job: string, phase: string, batchIndex: nat, batchCount: nat, batchAllocation: seq<string>,
    rolloutOrder: string, orderSource: string)

  function BatchEnv(c: BatchContext): Env {
    map["BATCH_ALLOCATIONS" := JoinComma(c.batchAllocation),
        "BATCH_INDEX" := Itoa(c.batchIndex),
        "BATCH_COUNT" := Itoa(c.batchCount),
        "DEPLOY_PHASE" := c.phase,
        "ROLLOUT_ORDER" := c.rolloutOrder,
        "ROLLOUT_ORDER_SOURCE" := c.orderSource,
        "JOB" := c.job]
  }

  /** The catalog row behind a worker address. */
  datatype Allocation = Allocation(id: string, index: string, disabled: bool)

  /** What is the same for every allocation of one invocation. `runtime` holds the runtime API and bucket
      variables set last. */
  datatype Hook = Hook(
    job: string, name: string, event: string, outer: Env, extra: Env, base: BatchContext,
    about: string -> Allocation, runtime: Env)

  function AllocationEnv(h: Hook, ip: string): Env {
    var a := h.about(ip);
    map["ALLOCATION_ID" := a.id,
        "ALLOCATION_IP" := ip,
        "ALLOCATION_INDEX" := a.index,
        "DISABLED" := if a.disabled then "1" else "0",
        "JOB" := h.job,
        "EVENT" := h.event,
        "HOOK" := h.name]
  }

  function HookEnv(h: Hook, c: BatchContext, ip: string): Env {
    h.outer + (h.extra + BatchEnv(c)) + AllocationEnv(h, ip) + h.runtime
  }

  /** The runtime variables have names of their own. */
  predicate Separate(h: Hook) {
    "BATCH_ALLOCATIONS" !in h.runtime && "BATCH_INDEX" !in h.runtime && "ALLOCATION_IP" !in h.runtime
  }

  // ---- The rule, in the two SDKs ----

  function NonEmptyStripped(parts: seq<string>): seq<string> {
    if parts == [] then []
    else
      var ip := Strip(parts[0], PythonSpace);
      (if ip != "" then [ip] else []) + NonEmptyStripped(parts[1..])
  }

  /** kive.py. */
  predicate IsOneShot(env: Env) {
    if Get(env, "BATCH_INDEX", "0") != "0" then false
    else
      var batch := NonEmptyStripped(SplitComma(Get(env, "BATCH_ALLOCATIONS", "")));
      if batch != [] then Strip(Get(env, "ALLOCATION_IP", ""), PythonSpace) == batch[0]
      else Get(env, "ALLOCATION_INDEX", "0") == "0"
  }

  /** kivehook.go; an unset variable reads as the empty string. */
  predicate IsOneShotGo(env: Env) {
    var v := Get(env, "BATCH_INDEX", "");
    if v != "" && v != "0" then false
    else
      var batch := Strip(Get(env, "BATCH_ALLOCATIONS", ""), GoSpace);
      if batch != "" then Get(env, "ALLOCATION_IP", "") == Strip(SplitComma(batch)[0], GoSpace)
      else
        var index := Get(env, "ALLOCATION_INDEX", "");
        index == "" || index == "0"
  }

  // ---- The batches of one invocation ----

  /** What happens to a batch: the run was cancelled before it, its hooks, and the step after it. */
  datatype Outcome = Outcome(cancelled: bool, hooksOk: bool, afterOk: bool)

  function Context(h: Hook, batch: seq<string>, k: nat, count: nat): BatchContext {
    h.base.(job := h.job, batchIndex := k, batchCount := count, batchAllocation := batch)
  }

  function ContextOf(h: Hook, batches: seq<seq<string>>, k: nat): BatchContext
    requires k < |batches|
  {
    Context(h, batches[k], k, |batches|)
  }

  predicate Passes(o: Outcome) {
    o.hooksOk && o.afterOk
  }

  /** How many of the first `n` batches fail, in their hooks or after them. */
  ghost function Failures(outcomes: nat -> Outcome, n: nat): nat {
    if n == 0 then 0 else Failures(outcomes, n - 1) + (if Passes(outcomes(n - 1)) then 0 else 1)
  }

  lemma {:induction false} NoFailures(outcomes: nat -> Outcome, n: nat)
    ensures Failures(outcomes, n) == 0 <==> forall k: nat :: k < n ==> Passes(outcomes(k))
  {
    if n > 0 {
      NoFailures(outcomes, n - 1);
    }
  }

  lemma FailuresStep(outcomes: nat -> Outcome, n: nat)
    ensures Failures(outcomes, n + 1) == Failures(outcomes, n) + (if Passes(outcomes(n)) then 0 else 1)
  {
  }

  /** The batch contexts whose hooks were started, in order, and how many of the batches failed. */
  method RunHookInBatches(h: Hook, ordered: seq<string>, requested: int, outcomes: nat -> Outcome, keepGoing: bool)
    returns (started: seq<BatchContext>, failures: nat)
    ensures var batches := Split(ordered, if requested < 1 then 1 else requested);
            |started| <= |batches| && forall k :: 0 <= k < |started| ==> started[k] == ContextOf(h, batches, k)
    ensures started == [] <==> ordered == [] || outcomes(0).cancelled
    ensures forall k :: 0 <= k < |started| ==> !outcomes(k).cancelled
    ensures !keepGoing ==> forall k :: 0 <= k < |started| - 1 ==> Passes(outcomes(k))
    ensures failures == Failures(outcomes, |started|)
    ensures |started| < |Split(ordered, if requested < 1 then 1 else requested)| ==>
              outcomes(|started|).cancelled || (failures > 0 && !keepGoing)
  {
    hide Passes, Failures, Context;
    NoFailures(outcomes, 0);
    started, failures := [], 0;
    if |ordered| == 0 {
      return;
    }
    var size := if requested < 1 then 1 else requested;
    var batches := SplitWorkerBatches(ordered, size);
    for i := 0 to |batches|
      invariant |started| == i
      invariant forall k :: 0 <= k < i ==> started[k] == ContextOf(h, batches, k) && !outcomes(k).cancelled
      invariant failures == Failures(outcomes, i) && (!keepGoing ==> failures == 0)
    {
      NoFailures(outcomes, i);
      if outcomes(i).cancelled {
        return;
      }
      started := started + [ContextOf(h, batches, i)];
      FailuresStep(outcomes, i);
      if !Passes(outcomes(i)) {
        failures := failures + 1;
        if !keepGoing {
          return;
        }
      }
    }
    NoFailures(outcomes, |batches|);
  }

  // ---- Exactly one ----

  /** Worker addresses as the catalog stores them. Whatever Go trims, the scripting language trims too. */
  ghost predicate PlainAddress(ip: string) {
    ip != "" && ',' !in ip && !PythonSpace(ip[0]) && !PythonSpace(ip[|ip| - 1])
  }

  lemma StripPlain(ip: string)
    requires PlainAddress(ip)
    ensures Strip(ip, PythonSpace) == ip && Strip(ip, GoSpace) == ip
  {
  }

  lemma IndexZero(n: nat)
    ensures Itoa(n) == "0" <==> n == 0
    ensures Itoa(n) != ""
  {
    assert DigitsValue(Itoa(n)) == n;
    if n == 0 {
      assert ItoaNat(0) == [DigitChar(0)];
      assert DigitChar(0) == '0';
    } else {
      assert DigitsValue("0") == 0 by { assert ItoaNat(0) == [DigitChar(0)] && DigitChar(0) == '0'; }
    }
  }

  ghost predicate Addresses(ips: seq<string>) {
    forall ip :: ip in ips ==> PlainAddress(ip)
  }

  lemma BatchValues(c: BatchContext)
    ensures var env := BatchEnv(c);
            "BATCH_INDEX" in env && env["BATCH_INDEX"] == Itoa(c.batchIndex)
            && "BATCH_ALLOCATIONS" in env && env["BATCH_ALLOCATIONS"] == JoinComma(c.batchAllocation)
  {
    hide JoinComma, Itoa;
  }

  lemma AllocationValues(h: Hook, ip: string)
    ensures var env := AllocationEnv(h, ip);
            "BATCH_INDEX" !in env && "BATCH_ALLOCATIONS" !in env
            && "ALLOCATION_IP" in env && env["ALLOCATION_IP"] == ip
  {
  }

  lemma EnvValues(h: Hook, c: BatchContext, ip: string)
    requires Separate(h)
    ensures var env := HookEnv(h, c, ip);
            Get(env, "ALLOCATION_IP", "") == ip
            && forall d :: Get(env, "BATCH_INDEX", d) == Itoa(c.batchIndex)
                        && Get(env, "BATCH_ALLOCATIONS", d) == JoinComma(c.batchAllocation)
  {
    hide JoinComma, Itoa, BatchEnv, AllocationEnv;
    BatchValues(c);
    AllocationValues(h, ip);
  }

  /** Within a batch, the first address and no other. */
  lemma OneShotInBatch(h: Hook, c: BatchContext, ip: string)
    requires Separate(h) && c.batchAllocation != [] && Addresses(c.batchAllocation) && ip in c.batchAllocation
    ensures IsOneShot(HookEnv(h, c, ip)) <==> c.batchIndex == 0 && ip == c.batchAllocation[0]
  {
    hide SplitComma, JoinComma, PlainAddress, Itoa, Strip, HookEnv, Get;
    EnvValues(h, c, ip);
    IndexZero(c.batchIndex);
    CommaFreeAll(c.batchAllocation);
    SplitJoin(c.batchAllocation);
    StripPlain(ip);
    StripPlain(c.batchAllocation[0]);
    NotEmpty(c.batchAllocation[0]);
  }

  lemma {:induction false} FirstStripped(parts: seq<string>)
    requires parts != [] && Strip(parts[0], PythonSpace) != ""
    ensures NonEmptyStripped(parts) != [] && NonEmptyStripped(parts)[0] == Strip(parts[0], PythonSpace)
  {
  }

  /** In Python also for addresses with space around them: stripped, the first address and no other. */
  lemma OneShotSpaced(h: Hook, c: BatchContext, ip: string)
    requires Separate(h) && c.batchAllocation != [] && forall x :: x in c.batchAllocation ==> ',' !in x
    requires Strip(c.batchAllocation[0], PythonSpace) != ""
    ensures IsOneShot(HookEnv(h, c, ip)) <==>
            c.batchIndex == 0 && Strip(ip, PythonSpace) == Strip(c.batchAllocation[0], PythonSpace)
  {
    hide SplitComma, JoinComma, Itoa, Strip, HookEnv, Get;
    EnvValues(h, c, ip);
    IndexZero(c.batchIndex);
    SplitJoin(c.batchAllocation);
    FirstStripped(c.batchAllocation);
  }

  /** Outside batches the allocation index decides; the two SDKs differ exactly when it is set, but empty. */
  lemma OutsideBatches(env: Env)
    requires "BATCH_INDEX" !in env && "BATCH_ALLOCATIONS" !in env
    ensures IsOneShot(env) <==> "ALLOCATION_INDEX" !in env || env["ALLOCATION_INDEX"] == "0"
    ensures IsOneShotGo(env) <==> "ALLOCATION_INDEX" !in env || env["ALLOCATION_INDEX"] in {"", "0"}
    ensures IsOneShot(env) != IsOneShotGo(env) <==> "ALLOCATION_INDEX" in env && env["ALLOCATION_INDEX"] == ""
  {
    assert SplitComma("") == [""];
    assert NonEmptyStripped([""]) == [] by {
      assert [""][1..] == [];
    }
  }

  lemma {:induction false} JoinPlain(ips: seq<string>)
    requires ips != [] && Addresses(ips)
    ensures var s := JoinComma(ips); s != "" && !PythonSpace(s[0]) && !PythonSpace(s[|s| - 1])
  {
    assert PlainAddress(ips[0]);
    if |ips| > 1 {
      JoinPlain(ips[1..]);
    }
  }

  lemma JoinedEnds(s: string)
    requires s != "" && !PythonSpace(s[0]) && !PythonSpace(s[|s| - 1])
    ensures Strip(s, GoSpace) == s
  {
  }

  /** The two SDKs answer alike for every allocation. */
  lemma SdksAgree(h: Hook, c: BatchContext, ip: string)
    requires Separate(h) && c.batchAllocation != [] && Addresses(c.batchAllocation) && ip in c.batchAllocation
    ensures IsOneShotGo(HookEnv(h, c, ip)) <==> IsOneShot(HookEnv(h, c, ip))
  {
    hide SplitComma, JoinComma, PlainAddress, Itoa, Strip, HookEnv, Get, IsOneShot;
    OneShotInBatch(h, c, ip);
    EnvValues(h, c, ip);
    IndexZero(c.batchIndex);
    JoinPlain(c.batchAllocation);
    JoinedEnds(JoinComma(c.batchAllocation));
    CommaFreeAll(c.batchAllocation);
    SplitJoin(c.batchAllocation);
    StripPlain(c.batchAllocation[0]);
  }

  lemma NotEmpty(ip: string)
    requires PlainAddress(ip)
    ensures ip != ""
  {
  }

  lemma CommaFreeAll(ips: seq<string>)
    requires Addresses(ips)
    ensures forall ip :: ip in ips ==> ',' !in ip
  {
  }

  /** The environments of the hooks of these batches, in order. */
  function EnvsOf(h: Hook, c: BatchContext, ips: seq<string>): seq<Env> {
    if ips == [] then [] else [HookEnv(h, c, ips[0])] + EnvsOf(h, c, ips[1..])
  }

  function AllEnvs(h: Hook, started: seq<BatchContext>): seq<Env> {
    if started == [] then [] else EnvsOf(h, started[0], started[0].batchAllocation) + AllEnvs(h, started[1..])
  }

  function Count(envs: seq<Env>): nat {
    if envs == [] then 0 else (if IsOneShot(envs[0]) then 1 else 0) + Count(envs[1..])
  }

  lemma {:induction false} CountConcat(a: seq<Env>, b: seq<Env>)
    ensures Count(a + b) == Count(a) + Count(b)
  {
    hide IsOneShot;
    if a == [] {
      assert a + b == b;
    } else {
      assert (a + b)[1..] == a[1..] + b;
      CountConcat(a[1..], b);
    }
  }

  lemma {:induction false} CountBatch(h: Hook, c: BatchContext, from: nat)
    requires Separate(h) && c.batchAllocation != [] && Addresses(c.batchAllocation) && Distinct(c.batchAllocation)
    requires from <= |c.batchAllocation|
    ensures Count(EnvsOf(h, c, c.batchAllocation[from..])) == if c.batchIndex == 0 && from == 0 then 1 else 0
    decreases |c.batchAllocation| - from
  {
    hide IsOneShot, HookEnv, PlainAddress, Separate;
    if from < |c.batchAllocation| {
      var ips := c.batchAllocation[from..];
      assert ips[1..] == c.batchAllocation[from + 1..];
      OneShotInBatch(h, c, ips[0]);
      CountBatch(h, c, from + 1);
    }
  }

  /** The batches started by one invocation, whichever of them fail. */
  ghost predicate Started(h: Hook, started: seq<BatchContext>) {
    forall k :: 0 <= k < |started| ==>
      var c := started[k];
      c.batchIndex == k && c.batchAllocation != [] && Addresses(c.batchAllocation) && Distinct(c.batchAllocation)
  }

  lemma {:induction false} CountFrom(h: Hook, started: seq<BatchContext>, from: nat)
    requires Separate(h) && Started(h, started) && from <= |started|
    ensures Count(AllEnvs(h, started[from..])) == if from == 0 && started != [] then 1 else 0
    decreases |started| - from
  {
    hide IsOneShot, EnvsOf, Addresses, Separate;
    if from < |started| {
      var rest := started[from..];
      var c := rest[0];
      assert rest[1..] == started[from + 1..];
      CountBatch(h, c, 0);
      assert c.batchAllocation[0..] == c.batchAllocation;
      CountConcat(EnvsOf(h, c, c.batchAllocation), AllEnvs(h, rest[1..]));
      CountFrom(h, started, from + 1);
    }
  }

  lemma {:induction false} BatchFacts(ordered: seq<string>, size: nat, k: nat)
    requires size >= 1 && k < |Split(ordered, size)| && Distinct(ordered)
    ensures var b := Split(ordered, size)[k]; b != [] && Distinct(b) && forall x :: x in b ==> x in ordered
  {
    SplitSize(ordered, size, k);
    SplitFlatten(ordered, size);
    if |ordered| > size {
      assert ordered == ordered[..size] + ordered[size..];
      DistinctParts(ordered[..size], ordered[size..]);
      if k > 0 {
        BatchFacts(ordered[size..], size, k - 1);
      }
    }
  }

  /** Of all the allocations whose hooks one invocation starts, exactly one is the one-shot, whatever the batch
      size and whichever batches fail. */
  lemma ExactlyOneShot(h: Hook, ordered: seq<string>, size: nat, started: seq<BatchContext>)
    requires Separate(h) && size >= 1 && Distinct(ordered) && Addresses(ordered)
    requires var batches := Split(ordered, size);
             |started| <= |batches| && forall k :: 0 <= k < |started| ==> started[k] == ContextOf(h, batches, k)
    ensures Count(AllEnvs(h, started)) == if started == [] then 0 else 1
  {
    hide Separate, PlainAddress, Split, IsOneShot, AllEnvs, Count;
    forall k | 0 <= k < |started|
      ensures var c := started[k];
        c.batchIndex == k && c.batchAllocation != [] && Addresses(c.batchAllocation) && Distinct(c.batchAllocation)
    {
      BatchFacts(ordered, size, k);
    }
    CountFrom(h, started, 0);
    assert started[0..] == started;
  }
}
