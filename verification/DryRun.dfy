/** The plan a dry run reports, and its agreement with what a deploy does (deploy/dry_run.go). */
module DryRun {
  import opened Prelude
  import opened Manifest
  import opened Catalog
  import opened Batches
  import opened RolloutPolicy
  import opened Rollout
  import opened RolloutFacts
  import opened DeployTheorems
  import Versions
  import Strings

  /** The action reported, and whether the allocation makes the job need a rollout. */
  datatype AllocationPlan = AllocationPlan(action: Action, needs: bool)

  function Resolve(a: Allocation, c: JobConf, hashChanged: bool, versionOnly: bool): Action {
    ResolveUpdateAction(
      c.policy, c.restartGlobs, c.reloadGlobs, AppliedFiles(a), PendingFiles(a),
      hashChanged, versionOnly, a.plan.None? || a.plan.value.applied.None?).action
  }

  /** planActiveAllocation. Hash rows never hold an empty hash, so an empty previous hash means none. */
  function PlanActive(a: Allocation, c: JobConf, force: bool): AllocationPlan {
    if a.plan.None? || a.plan.value.applied.None? then AllocationPlan(Start, true)
    else if ContentPending(a) then
      var action := Resolve(a, c, true, false);
      AllocationPlan(action, !(OnlyHooksChanged(Diff(AppliedFiles(a), PendingFiles(a))) && action == Sync))
    else if force then AllocationPlan(Resolve(a, c, false, false), true)
    else if NeedsVersion(a) then AllocationPlan(Resolve(a, c, false, true), true)
    else AllocationPlan(Skip, false)
  }

  // ---- What a run does to one worker ----

  ghost function ActionOf(e: Event, w: string): seq<Action> {
    if e.kind == Acting && w in e.batch then [e.action] else []
  }

  /** Lifecycle actions performed on the worker, in order. */
  ghost function ActionsOn(log: seq<Event>, w: string): seq<Action> {
    if log == [] then [] else ActionOf(log[0], w) + ActionsOn(log[1..], w)
  }

  lemma {:induction false} ActionsConcat(a: seq<Event>, b: seq<Event>, w: string)
    ensures ActionsOn(a + b, w) == ActionsOn(a, w) + ActionsOn(b, w)
  {
    hide ActionOf;
    if a == [] {
      assert a + b == b;
    } else {
      ActionsConcat(a[1..], b, w);
      assert (a + b)[0] == a[0] && (a + b)[1..] == a[1..] + b;
      Regroup(ActionOf(a[0], w), ActionsOn(a[1..], w), ActionsOn(b, w));
    }
  }

  lemma PassedActions(action: Action, b: seq<string>, w: string)
    ensures ActionsOn(PassedLog(action, b), w) == if w in b then [action] else []
  {
    var e1, e2 := Event(Acting, action, b), Event(Hooking, action, b);
    var e3, e4 := Event(Promoting, action, b), Event(Passing, action, b);
    assert PassedLog(action, b) == [e1] + ([e2] + ([e3] + [e4]));
    ActionsConcat([e1], [e2] + ([e3] + [e4]), w);
    ActionsConcat([e2], [e3] + [e4], w);
    ActionsConcat([e3], [e4], w);
    assert [e1][1..] == [] && [e2][1..] == [] && [e3][1..] == [] && [e4][1..] == [];
  }

  lemma {:induction false} BatchesActions(rows: Rows, action: Action, batches: seq<seq<string>>, force: bool,
                                          world: World, t: nat, w: string)
    requires Distinct(Flatten(batches)) && RunBatches(rows, action, batches, force, world, t).ok
    ensures ActionsOn(RunBatches(rows, action, batches, force, world, t).log, w)
            == if w in Flatten(batches) then [action] else []
    decreases |batches|
  {
    hide PassedLog, PromoteRows, MarkRows, ActionsOn;
    if batches == [] {
      NoActions(w);
    } else {
      var b := batches[0];
      DistinctParts(b, Flatten(batches[1..]));
      var promoted := PromoteRows(rows, b);
      BatchesActions(promoted, action, batches[1..], force, world, t + 1, w);
      PassedActions(action, b, w);
      ActionsConcat(PassedLog(action, b), RunBatches(promoted, action, batches[1..], force, world, t + 1).log, w);
    }
  }

  lemma NoActions(w: string)
    ensures ActionsOn([], w) == []
  {
  }

  lemma PhaseActions(rows: Rows, c: JobConf, action: Action, candidates: seq<string>, limit: int, force: bool,
                     world: World, t: nat, w: string)
    requires Distinct(candidates) && Distinct(c.catalog)
    requires forall x :: x in candidates ==> x in rows && Active(rows[x])
    requires Phase(rows, c, action, candidates, limit, force, world, t).ok
    ensures ActionsOn(Phase(rows, c, action, candidates, limit, force, world, t).log, w)
            == if w in candidates then [action] else []
  {
    hide RunBatches, OrderedBatches, Flatten, Active, ActionsOn;
    OrderedBatchesFacts(rows, c, candidates, limit);
    var bs := OrderedBatches(rows, c, candidates, limit);
    BatchesActions(rows, action, bs, force, world, t, w);
    assert w in Flatten(bs) <==> w in Elements(Flatten(bs));
    assert w in candidates <==> w in Elements(candidates);
  }

  lemma UpdateActions(rows: Rows, c: JobConf, force: bool, world: World, t: nat, w: string)
    requires ConfOk(rows, c) && UpdatePhase(rows, c, force, world, t).ok
    ensures ActionsOn(UpdatePhase(rows, c, force, world, t).log, w) ==
            if w in rows && w in NeedingRestart(rows, c, force) && UpdateAction(rows[w], c) in {Reload, Restart}
            then [UpdateAction(rows[w], c)] else []
  {
    hide Phase, NeedingRestart, WorkersFor, UpdateAction, Active, ActionsOn, Fate, Touched;
    var updated := NeedingRestart(rows, c, force);
    NeedingRestartFacts(rows, c, force);
    var reloads, restarts := WorkersFor(Reload, rows, c, updated), WorkersFor(Restart, rows, c, updated);
    WorkersForFacts(Reload, rows, c, updated);
    WorkersForFacts(Restart, rows, c, updated);
    PhaseFacts(rows, c, Reload, reloads, RestartLimit(c), force, world, t);
    var r := Phase(rows, c, Reload, reloads, RestartLimit(c), force, world, t);
    forall x | x in restarts
      ensures x in r.rows && Active(r.rows[x])
    {
      FateKeepsFlags(rows[x], x, r.log);
    }
    PhaseActions(rows, c, Reload, reloads, RestartLimit(c), force, world, t, w);
    PhaseActions(r.rows, c, Restart, restarts, RestartLimit(c), force, world, r.t, w);
    ActionsConcat(r.log, Phase(r.rows, c, Restart, restarts, RestartLimit(c), force, world, r.t).log, w);
  }

  /** Under force too: a start phase runs on new allocations, then the update phase on what it then finds. */
  lemma LifecycleActions(rows: Rows, c: JobConf, force: bool, world: World, w: string)
    requires ConfOk(rows, c) && w in rows && Lifecycle(rows, c, force, world).ok
    ensures ActionsOn(Lifecycle(rows, c, force, world).log, w) ==
            var a := if IsNew(rows[w]) then Promote(rows[w]) else rows[w];
            (if IsNew(rows[w]) then [Start] else []) +
            (if Active(a) && (force || NeedsWork(a)) && !IsNew(a) && UpdateAction(a, c) in {Reload, Restart}
             then [UpdateAction(a, c)] else [])
  {
    hide Phase, UpdatePhase, NewWorkers, NeedingRestart, UpdateAction, Active, IsNew, NeedsWork, ActionsOn, Promote,
         Tracks, Acts;
    NewWorkersFacts(rows, c);
    var started := NewWorkers(rows, c);
    forall x | x in started
      ensures x in rows && Active(rows[x])
    {
      NewHasPlan(rows[x]);
    }
    PhaseFacts(rows, c, Start, started, c.maxStarts, force, world, 0);
    PhaseActions(rows, c, Start, started, c.maxStarts, force, world, 0, w);
    var r := StartPhase(rows, c, force, world);
    AfterStarts(rows, c, r);
    UpdateActions(r.rows, c, force, world, r.t, w);
    NeedingRestartFacts(r.rows, c, force);
    ActionsConcat(r.log, UpdatePhase(r.rows, c, force, world, r.t).log, w);
  }

  // ---- Plan and execution ----

  /** The action a non-force deploy takes on a worker: it starts the new allocations, and sorts what then needs
      work into reload, restart and sync; it takes none on the others, nor when the job needs no rollout. */
  function Taken(rows: Rows, c: JobConf, world: World, w: string): Action {
    if !JobNeedsRollout(rows) then Skip
    else if w in NewWorkers(rows, c) then Start
    else
      var started := StartPhase(rows, c, false, world).rows;
      if w in started && w in NeedingRestart(started, c, false) then UpdateAction(started[w], c) else Skip
  }

  /** What a worker runs, as the catalog has it. */
  function Running(a: Allocation): (Option<Hash>, string) {
    (if a.plan.Some? then a.plan.value.applied else None, StoredVersion(a))
  }

  /** Stored and target version differ as text, but not once normalised. */
  predicate VersionRespelled(a: Allocation) {
    VersionPending(a) && !NeedsVersion(a)
  }

  lemma SameVersionText(a: Allocation)
    ensures NeedsVersion(a) ==> VersionPending(a)
  {
  }

  lemma PromotedIsIdle(a: Allocation)
    requires IsNew(a)
    ensures !NeedsWork(Promote(a)) && !IsNew(Promote(a)) && Active(Promote(a))
  {
  }

  lemma PlannedAction(a: Allocation, c: JobConf)
    requires Active(a) && a.plan.Some? && !IsNew(a)
    ensures ContentPending(a) ==> PlanActive(a, c, false).action == UpdateAction(a, c)
    ensures !ContentPending(a) && NeedsVersion(a) ==> PlanActive(a, c, false).action == UpdateAction(a, c)
    ensures !ContentPending(a) && !NeedsVersion(a) ==> PlanActive(a, c, false).action == Skip
  {
    hide AppliedFiles, PendingFiles, ResolveUpdateAction;
  }

  lemma UpdateActionKind(a: Allocation, c: JobConf)
    ensures UpdateAction(a, c) in {Reload, Restart, Sync}
  {
    hide AppliedFiles, PendingFiles, OnlyHooksChanged, MatchAny, MatchNotAny, Diff, NeedsVersion;
  }

  lemma WorkNeedsRollout(rows: Rows, w: string)
    requires w in rows && NeedsWork(rows[w])
    ensures JobNeedsRollout(rows)
  {
    assert NeedsRollout(rows[w]);
  }

  /** In a successful run the action taken is read off the worker's own row. */
  lemma TakenOnRow(rows: Rows, c: JobConf, world: World, w: string)
    requires ConfOk(rows, c) && w in rows && Active(rows[w]) && DeployJob(rows, c, false, world).ok
    ensures Taken(rows, c, world, w) ==
            if IsNew(rows[w]) then Start else if NeedsWork(rows[w]) then UpdateAction(rows[w], c) else Skip
  {
    hide Phase, UpdatePhase, NewWorkers, NeedingRestart, UpdateAction, Active, IsNew, NeedsWork, JobNeedsRollout,
         Tracks, Acts, Promote;
    if NeedsWork(rows[w]) {
      WorkNeedsRollout(rows, w);
    }
    if IsNew(rows[w]) {
      NewHasPlan(rows[w]);
    }
    if JobNeedsRollout(rows) {
      NewWorkersFacts(rows, c);
      StartedRows(rows, c, false, world);
      var started := StartPhase(rows, c, false, world).rows;
      NeedingRestartFacts(started, c, false);
    }
  }

  lemma StartedRows(rows: Rows, c: JobConf, force: bool, world: World)
    requires ConfOk(rows, c) && StartPhase(rows, c, force, world).ok
    ensures var r := StartPhase(rows, c, force, world);
            forall w :: w in rows ==> r.rows[w] == if IsNew(rows[w]) then Promote(rows[w]) else rows[w]
  {
    hide Phase, NewWorkers, IsNew, Active, Tracks, Acts, Promote, NeedsWork;
    NewWorkersFacts(rows, c);
    var started := NewWorkers(rows, c);
    forall x | x in started
      ensures x in rows && Active(rows[x])
    {
      NewHasPlan(rows[x]);
    }
    PhaseFacts(rows, c, Start, started, c.maxStarts, force, world, 0);
    AfterStarts(rows, c, StartPhase(rows, c, force, world));
  }

  /** Promotion changes what a worker is recorded to run exactly when it needed work. */
  lemma PromotionShows(a: Allocation)
    requires Active(a) && a.plan.Some?
    ensures Running(Promote(a)) == Running(a) <==> !NeedsWork(a)
  {
  }

  /** The action taken shows: start, reload and restart are the worker's actions in the log, and any action at
      all, sync included, is what changes the applied hash or version that the run leaves. */
  lemma TakenShows(rows: Rows, c: JobConf, world: World, w: string)
    requires ConfOk(rows, c) && w in rows && Active(rows[w]) && rows[w].plan.Some?
    requires DeployJob(rows, c, false, world).ok
    ensures var taken := Taken(rows, c, world, w);
            && ActionsOn(DeployJob(rows, c, false, world).log, w) ==
               (if taken in {Start, Reload, Restart} then [taken] else [])
            && (Running(DeployJob(rows, c, false, world).rows[w]) == Running(rows[w]) <==> taken == Skip)
  {
    hide Lifecycle, Taken, UpdateAction, ActionsOn, Promote, IsNew, NeedsWork, Running;
    var a := rows[w];
    TakenOnRow(rows, c, world, w);
    UpdateActionKind(a, c);
    SuccessPromotesAll(rows, c, false, world);
    PromotionShows(a);
    if IsNew(a) {
      NewHasPlan(a);
      PromotedIsIdle(a);
    }
    if JobNeedsRollout(rows) {
      LifecycleActions(rows, c, false, world, w);
    } else {
      NoActions(w);
      if NeedsWork(a) {
        WorkNeedsRollout(rows, w);
      }
    }
  }

  /** Plan equals execution, exactly: for an active, staged allocation the action a dry run reports (start,
      restart, reload, sync or none) is the one a fully successful non-force deploy takes, unless nothing is
      pending on it but a version that is only spelled differently. */
  lemma PlanEqualsExecution(rows: Rows, c: JobConf, world: World, w: string)
    requires ConfOk(rows, c) && w in rows && Active(rows[w]) && rows[w].plan.Some?
    requires DeployJob(rows, c, false, world).ok
    ensures PlanActive(rows[w], c, false).action == Taken(rows, c, world, w)
            <==> !(!IsNew(rows[w]) && !ContentPending(rows[w]) && VersionRespelled(rows[w]))
  {
    hide DeployJob, Taken, UpdateAction, ContentPending, VersionPending, NeedsVersion;
    var a := rows[w];
    TakenOnRow(rows, c, world, w);
    SameVersionText(a);
    UpdateActionKind(a, c);
    if !IsNew(a) {
      PlannedAction(a, c);
    }
  }

  /** With versions stored in normal form, the dry run is exact for every active allocation. */
  lemma PlanIsExact(rows: Rows, c: JobConf, world: World, w: string)
    requires ConfOk(rows, c) && w in rows && Active(rows[w]) && rows[w].plan.Some? && NormalVersions(rows[w])
    requires DeployJob(rows, c, false, world).ok
    ensures PlanActive(rows[w], c, false).action == Taken(rows, c, world, w)
  {
    hide DeployJob, PlanActive, Taken, Versions.Normalize;
    PlanEqualsExecution(rows, c, world, w);
    Versions.DefaultIsNormal();
  }

  /** And it stays exact: from rows whose versions are in normal form, as every writer leaves them, no sequence
      of deploys leads to a row the dry run would misjudge. */
  lemma PlanStaysExact(rows: Rows, attempts: seq<Attempt>, c: JobConf, world: World, w: string)
    requires AllNormal(rows) && forall k :: 0 <= k < |attempts| ==> ConfOk(rows, attempts[k].conf)
    requires var after := RunAll(rows, attempts);
             && ConfOk(after, c) && w in after && Active(after[w]) && after[w].plan.Some?
             && DeployJob(after, c, false, world).ok
    ensures var after := RunAll(rows, attempts);
            PlanActive(after[w], c, false).action == Taken(after, c, world, w)
  {
    hide RunAll, DeployJob, PlanActive, Taken, NormalVersions;
    RunsKeepNormal(rows, attempts);
    PlanIsExact(RunAll(rows, attempts), c, world, w);
  }

  /** An active allocation is announced as needing a rollout exactly when it makes the job need one, unless only hook
      files changed, which are synced, or nothing is pending but a version spelled differently. */
  lemma PlanNeedsExactly(a: Allocation, c: JobConf)
    requires Active(a) && a.plan.Some?
    ensures PlanActive(a, c, false).needs <==>
            && NeedsRollout(a)
            && !(ContentPending(a) && OnlyHooksChanged(Diff(AppliedFiles(a), PendingFiles(a))))
            && (IsNew(a) || ContentPending(a) || !VersionRespelled(a))
  {
    hide AppliedFiles, PendingFiles, OnlyHooksChanged, MatchAny, MatchNotAny, Diff, NeedsVersion;
    SameVersionText(a);
  }

  /** A live allocation whose one change is a hook file. */
  const HookChanged: Allocation := Allocation(
    false, false, None, Some(PlanRow(Tree(["2"]), Some(Tree(["1"])), Some("0.0.0"))),
    map["_hooks/run.sh" := FileRow(Some("2"), Some("1"))])

  /** Where the hooks pattern matches that file, the dry run announces no rollout for it while the job needs one, and
      a run that goes well changes what it is recorded to run. */
  lemma HookChangeNotAnnounced(c: JobConf, world: World)
    requires c.listing == ["w"] && c.catalog == ["w"] && AllGood(world) && GlobMatch(HooksGlob, "_hooks/run.sh")
    ensures var rows := map["w" := HookChanged];
            && !PlanActive(HookChanged, c, false).needs && PlanActive(HookChanged, c, false).action == Sync
            && JobNeedsRollout(rows) && DeployJob(rows, c, false, world).ok
            && Running(DeployJob(rows, c, false, world).rows["w"]) != Running(HookChanged)
  {
    hide DeployJob, Running, PlanActive, Taken, UpdateAction;
    var rows := map["w" := HookChanged];
    HookChangedFacts(c);
    GoodWorldSucceeds(rows, c, false, world);
    WorkNeedsRollout(rows, "w");
    assert ConfOk(rows, c);
    TakenOnRow(rows, c, world, "w");
    TakenShows(rows, c, world, "w");
  }

  lemma HookChangedFacts(c: JobConf)
    requires GlobMatch(HooksGlob, "_hooks/run.sh")
    ensures Active(HookChanged) && !IsNew(HookChanged) && ContentPending(HookChanged) && NeedsWork(HookChanged)
    ensures !PlanActive(HookChanged, c, false).needs && PlanActive(HookChanged, c, false).action == Sync
    ensures UpdateAction(HookChanged, c) == Sync
  {
    var changed := Diff(AppliedFiles(HookChanged), PendingFiles(HookChanged));
    assert "_hooks/run.sh" in changed;
    assert forall p :: p in changed ==> p == "_hooks/run.sh";
    OnlyHooksMeansAll(changed);
    hide MatchAny, MatchNotAny, OnlyHooksChanged;
    PlannedAction(HookChanged, c);
    PlanNeedsExactly(HookChanged, c);
  }

  /** A live, unchanged allocation whose target version is stored as "unknown", the spelling of the default that
      no writer stores. */
  const Respelled: Allocation := Allocation(
    false, false, Some("unknown"), Some(PlanRow(Tree([]), Some(Tree([])), Some("0.0.0"))), map[])

  /** It is planned as nothing to do; a run that goes well restarts it, or under policy never syncs it, and its
      recorded version changes. */
  lemma RespelledVersionTaken(policy: Policy, world: World)
    requires AllGood(world)
    ensures var rows := map["w" := Respelled];
            var c := JobConf(policy, [], [], 1, 1, 1, ["w"], ["w"], None);
            && !NormalVersions(Respelled)
            && PlanActive(Respelled, c, false).action == Skip
            && DeployJob(rows, c, false, world).ok
            && Taken(rows, c, world, "w") ==
               (match policy case Never => Sync case OnReload => Reload case _ => Restart)
            && Running(DeployJob(rows, c, false, world).rows["w"]) != Running(Respelled)
  {
    hide DeployJob, Taken, PlanActive;
    var rows := map["w" := Respelled];
    var c := JobConf(policy, [], [], 1, 1, 1, ["w"], ["w"], None);
    GoodWorldSucceeds(rows, c, false, world);
    RespelledFacts(c);
    assert ConfOk(rows, c);
    TakenOnRow(rows, c, world, "w");
    TakenShows(rows, c, world, "w");
  }

  lemma RespelledFacts(c: JobConf)
    requires c.restartGlobs == [] && c.reloadGlobs == []
    ensures Active(Respelled) && !IsNew(Respelled) && NeedsWork(Respelled) && !NormalVersions(Respelled)
    ensures PlanActive(Respelled, c, false).action == Skip
    ensures UpdateAction(Respelled, c) == match c.policy case Never => Sync case OnReload => Reload case _ => Restart
  {
    NormalDefaults();
    assert AppliedFiles(Respelled) == map[] == PendingFiles(Respelled);
    DiffEmpty(AppliedFiles(Respelled), PendingFiles(Respelled));
  }

  lemma NormalDefaults()
    ensures Versions.Normalize("unknown") == "0.0.0" && Versions.Normalize("0.0.0") == "0.0.0"
  {
    assert Strings.TrimSpace("unknown") == "unknown";
    assert Strings.TrimSpace("0.0.0") == "0.0.0";
  }

  /** Under force, an allocation just started is acted on again in the same run unless its policy says sync. */
  lemma ForceActsAgain(rows: Rows, c: JobConf, world: World, w: string)
    requires ConfOk(rows, c) && w in rows && IsNew(rows[w])
    requires DeployJob(rows, c, true, world).ok
    ensures var again := UpdateAction(Promote(rows[w]), c);
            ActionsOn(DeployJob(rows, c, true, world).log, w) == [Start] + (if again == Sync then [] else [again])
  {
    hide Lifecycle, UpdateAction, ActionsOn, Promote;
    LifecycleActions(rows, c, true, world, w);
    PromotedIsIdle(rows[w]);
    UpdateActionKind(Promote(rows[w]), c);
  }
}
