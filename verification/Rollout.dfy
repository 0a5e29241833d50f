/** One job's deploy as a function of its rows and of the outcomes of the outside world
    (deploy/rollout.go, deploy/hashes.go, deploy/allocations.go, deploy/job_deploy.go). */
module Rollout {
  import opened Prelude
  import opened Manifest
  import opened Catalog
  import opened Batches
  import opened RolloutOrder
  import opened RolloutPolicy

  /** Whether each outside step of a batch succeeds: the health gate before it, rsync and the lifecycle
      command on every worker, the allocation hooks, and the health gate after it. */
  datatype Outcome = Outcome(preHealth: bool, lifecycle: bool, hooks: bool, postHealth: bool)

  /** The outcome of the n-th batch of a run. */
  type World = nat -> Outcome

  /** `Acting`: rsync and the lifecycle command are started; `Hooking`: they succeeded, and the hooks are started. */
  datatype EventKind = Acting | Hooking | Promoting | Passing | Failing

  /** What happened to a batch, in order. */
  datatype Event = Event(kind: EventKind, action: Action, batch: seq<string>)

  datatype Run = Run(rows: Rows, ok: bool, log: seq<Event>, t: nat)

  /** Job settings, the order of the allocations table, the catalog's worker order and the stored rollout order. */
  datatype JobConf = JobConf(
    policy: Policy, restartGlobs: seq<string>, reloadGlobs: seq<string>,
    maxStarts: int, maxRestarts: int, hardCap: int,
    listing: seq<string>, catalog: seq<string>, storedOrder: Option<seq<string>>)

  function Chain(first: Run, second: Run): Run {
    second.(log := first.log + second.log)
  }

  // ---- Batches ----

  function RunBatches(rows: Rows, action: Action, batches: seq<seq<string>>, force: bool, world: World,
                      t: nat): (r: Run)
    ensures r.rows.Keys == rows.Keys
    decreases |batches|
  {
    if batches == [] then Run(rows, true, [], t)
    else
      var b, o := batches[0], world(t);
      if !force && !o.preHealth then Run(rows, false, [], t + 1)
      else if !o.lifecycle then Run(rows, false, [Event(Acting, action, b)], t + 1)
      else if !o.hooks then Run(rows, false, HookedLog(action, b), t + 1)
      else
        var promoted := PromoteRows(rows, b);
        if !o.postHealth then
          Run(MarkRows(promoted, b), false, FailedLog(action, b), t + 1)
        else
          Chain(Run(promoted, true, PassedLog(action, b), t + 1),
                RunBatches(promoted, action, batches[1..], force, world, t + 1))
  }

  function HookedLog(action: Action, b: seq<string>): seq<Event> {
    [Event(Acting, action, b), Event(Hooking, action, b)]
  }

  function PassedLog(action: Action, b: seq<string>): seq<Event> {
    HookedLog(action, b) + [Event(Promoting, action, b), Event(Passing, action, b)]
  }

  function FailedLog(action: Action, b: seq<string>): seq<Event> {
    HookedLog(action, b) + [Event(Promoting, action, b), Event(Failing, action, b)]
  }

  function OrderedBatches(rows: Rows, c: JobConf, candidates: seq<string>, limit: int): seq<seq<string>> {
    var active := Filter(candidates, w => w in rows && Active(rows[w]));
    var ordered := ResolveOrder(active, c.catalog, c.storedOrder);
    var size := EffectiveBatchSize(limit, |ordered|, c.hardCap);
    if size == 0 then [] else Split(ordered, size)
  }

  function Phase(rows: Rows, c: JobConf, action: Action, candidates: seq<string>, limit: int,
                 force: bool, world: World, t: nat): (r: Run)
    ensures r.rows.Keys == rows.Keys
  {
    RunBatches(rows, action, OrderedBatches(rows, c, candidates, limit), force, world, t)
  }

  // ---- Queries ----

  function NewWorkers(rows: Rows, c: JobConf): seq<string> {
    Filter(c.listing, w => w in rows && IsNew(rows[w]))
  }

  function UpdatedWorkers(rows: Rows, c: JobConf): seq<string> {
    Filter(c.listing, w => w in rows && Active(rows[w]) && ContentPending(rows[w]))
  }

  function VersionWorkers(rows: Rows, c: JobConf): seq<string> {
    Filter(c.listing, w => w in rows && Active(rows[w]) && VersionPending(rows[w]))
  }

  function ActiveWorkers(rows: Rows, c: JobConf): seq<string> {
    Filter(c.listing, w => w in rows && Active(rows[w]))
  }

  /** allocationsNeedingRestart: the new set is queried again here, after any starts were promoted. */
  function NeedingRestart(rows: Rows, c: JobConf, force: bool): seq<string> {
    if force then Difference(ActiveWorkers(rows, c), NewWorkers(rows, c))
    else Difference(Unique(UpdatedWorkers(rows, c) + VersionWorkers(rows, c)), NewWorkers(rows, c))
  }

  /** The action an updated allocation gets. */
  function UpdateAction(a: Allocation, c: JobConf): Action {
    var hashChanged := ContentPending(a);
    ResolveUpdateAction(
      c.policy, c.restartGlobs, c.reloadGlobs, AppliedFiles(a), PendingFiles(a),
      hashChanged, NeedsVersion(a) && !hashChanged, a.plan.None? || a.plan.value.applied.None?).action
  }

  function WorkersFor(action: Action, rows: Rows, c: JobConf, updated: seq<string>): seq<string> {
    Filter(updated, w => w in rows && UpdateAction(rows[w], c) == action)
  }

  function RestartLimit(c: JobConf): int {
    if c.maxRestarts < 1 then 1 else c.maxRestarts
  }

  // ---- Phases ----

  function StartPhase(rows: Rows, c: JobConf, force: bool, world: World): (r: Run)
    ensures r.rows.Keys == rows.Keys
  {
    Phase(rows, c, Start, NewWorkers(rows, c), c.maxStarts, force, world, 0)
  }

  /** Reload batches run before restart batches; workers whose action is Sync are left to the final promotion. */
  function UpdatePhase(rows: Rows, c: JobConf, force: bool, world: World, t: nat): (r: Run)
    ensures r.rows.Keys == rows.Keys
  {
    var updated := NeedingRestart(rows, c, force);
    var reloads := WorkersFor(Reload, rows, c, updated);
    var restarts := WorkersFor(Restart, rows, c, updated);
    var r1 := Phase(rows, c, Reload, reloads, RestartLimit(c), force, world, t);
    if !r1.ok then r1
    else Chain(r1, Phase(r1.rows, c, Restart, restarts, RestartLimit(c), force, world, r1.t))
  }

  function PromoteAll(rows: Rows): (r: Rows)
    ensures r.Keys == rows.Keys
  {
    map w | w in rows :: if rows[w].removed then rows[w] else Promote(rows[w])
  }

  function Lifecycle(rows: Rows, c: JobConf, force: bool, world: World): (r: Run)
    ensures r.rows.Keys == rows.Keys
  {
    var r1 := StartPhase(rows, c, force, world);
    if !r1.ok then r1 else Chain(r1, UpdatePhase(r1.rows, c, force, world, r1.t))
  }

  /** deployJob for a job without job_control hooks. */
  function DeployJob(rows: Rows, c: JobConf, force: bool, world: World): (r: Run)
    ensures r.rows.Keys == rows.Keys
  {
    if !force && !JobNeedsRollout(rows) then Run(rows, true, [], 0)
    else
      var r1 := Lifecycle(rows, c, force, world);
      if r1.ok then r1.(rows := PromoteAll(r1.rows)) else r1
  }

  /** Refreshes the pending hashes of every allocation that is not removed. */
  ghost function Refresh(rows: Rows, staged: map<string, FileManifest>): (r: Rows)
    ensures r.Keys == rows.Keys
  {
    map w | w in rows ::
      if rows[w].removed || w !in staged then rows[w] else UpdatePlan(rows[w], Aggregate(staged[w]), staged[w])
  }
}
