/** Retrying an allocation whose health gate failed: which action it gets, and whether a gate judges it
    (deploy/rollout_policy.go, deploy/hashes.go, deploy/job_deploy.go). */
module Retry {
  import opened Prelude
  import opened Manifest
  import opened Catalog
  import opened Batches
  import opened RolloutPolicy
  import opened Rollout
  import opened RolloutFacts
  import opened DeployTheorems
  import opened DryRun

  /** The row that a failed gate leaves. */
  function Marked(a: Allocation): Allocation {
    MarkHealthFailed(Promote(a))
  }

  /** The action of the attempt before. */
  function FirstAction(a: Allocation, c: JobConf): Action {
    if IsNew(a) then Start else UpdateAction(a, c)
  }

  predicate Staged(a: Allocation) {
    a.plan.Some? && a.plan.value.pending.Tree?
  }

  // ---- The action of a retry ----

  /** A marked row has no file difference, whatever changed before, so its action depends on the policy alone. */
  lemma RetryAction(a: Allocation, c: JobConf)
    requires Staged(a)
    ensures !IsNew(Marked(a)) && ContentPending(Marked(a))
    ensures UpdateAction(Marked(a), c) ==
            match c.policy
            case Never => Sync
            case Always => if c.reloadGlobs == [] then Restart else Reload
            case OnReload => Reload
            case Unknown => Restart
  {
    hide PromoteFiles;
    PromotedManifests(a);
    assert AppliedFiles(Marked(a)) == AppliedFiles(Promote(a)) && PendingFiles(Marked(a)) == PendingFiles(Promote(a));
    DiffEmpty(AppliedFiles(Marked(a)), PendingFiles(Marked(a)));
  }

  /** Guards of the first attempt under which its action did not come from the changed files, or came to what the
      policy does without any. */
  predicate Repeats(a: Allocation, c: JobConf) {
    var changed := Diff(AppliedFiles(a), PendingFiles(a));
    var versionOnly := NeedsVersion(a) && !ContentPending(a);
    && Staged(a) && a.plan.value.applied.Some?
    && if changed != {} && forall p :: p in changed ==> GlobMatch(HooksGlob, p) then c.policy == Never
       else match c.policy
         case Never => true
         case Unknown => true
         case Always =>
           c.reloadGlobs == [] || versionOnly || forall p :: p in changed ==> MatchesAny(c.reloadGlobs, p)
         case OnReload =>
           versionOnly || forall p :: p in changed ==> !MatchesAny(c.restartGlobs, p)
  }

  lemma NoneMatch(globs: seq<string>, changed: set<string>)
    ensures MatchAny(globs, changed) == {} <==> forall p :: p in changed ==> !MatchesAny(globs, p)
    ensures globs != [] ==> (MatchNotAny(globs, changed) == {} <==> forall p :: p in changed ==> MatchesAny(globs, p))
  {
    hide MatchesAny;
    forall p | p in changed
      ensures p in MatchAny(globs, changed) <==> MatchesAny(globs, p)
      ensures globs != [] ==> (p in MatchNotAny(globs, changed) <==> !MatchesAny(globs, p))
    {
    }
  }

  /** The retry repeats the first attempt's action exactly under those guards; a start is never repeated. */
  lemma RetryRepeatsExactly(a: Allocation, c: JobConf)
    requires Active(a) && Staged(a)
    ensures UpdateAction(Marked(a), c) == FirstAction(a, c) <==> Repeats(a, c)
  {
    hide MatchesAny, OnlyHooksChanged, MatchAny, MatchNotAny, Diff, AppliedFiles, PendingFiles, NeedsVersion, Marked,
         ContentPending;
    RetryAction(a, c);
    UpdateActionKind(Marked(a), c);
    var changed := Diff(AppliedFiles(a), PendingFiles(a));
    OnlyHooksMeansAll(changed);
    NoneMatch(c.reloadGlobs, changed);
    NoneMatch(c.restartGlobs, changed);
    forall p
      ensures c.restartGlobs == [] ==> !MatchesAny(c.restartGlobs, p)
    {
      NoGlobsMatch(p);
    }
  }

  // ---- Over runs ----

  lemma LogEvents(action: Action, b: seq<string>)
    ensures forall e :: e in PassedLog(action, b) + FailedLog(action, b) + HookedLog(action, b) ==>
              e.action == action && e.batch == b
  {
  }

  lemma {:induction false} BatchEvents(rows: Rows, action: Action, batches: seq<seq<string>>, force: bool,
                                       world: World, t: nat)
    ensures forall e :: e in RunBatches(rows, action, batches, force, world, t).log ==>
              e.action == action && e.batch in batches
    decreases |batches|
  {
    hide PromoteRows, MarkRows, HookedLog, PassedLog, FailedLog;
    if batches != [] {
      LogEvents(action, batches[0]);
      BatchEvents(PromoteRows(rows, batches[0]), action, batches[1..], force, world, t + 1);
    }
  }

  lemma PhaseEvents(rows: Rows, c: JobConf, action: Action, candidates: seq<string>, limit: int, force: bool,
                    world: World, t: nat)
    requires Distinct(candidates) && Distinct(c.catalog)
    requires forall w :: w in candidates ==> w in rows && Active(rows[w])
    ensures forall e, w :: e in Phase(rows, c, action, candidates, limit, force, world, t).log && w in e.batch ==>
              e.action == action && w in candidates
  {
    hide RunBatches, OrderedBatches, Flatten, Active;
    var bs := OrderedBatches(rows, c, candidates, limit);
    OrderedBatchesFacts(rows, c, candidates, limit);
    BatchEvents(rows, action, bs, force, world, t);
    var log := Phase(rows, c, action, candidates, limit, force, world, t).log;
    assert log == RunBatches(rows, action, bs, force, world, t).log;
    forall e, w | e in log && w in e.batch
      ensures e.action == action && w in candidates
    {
      var k :| 0 <= k < |bs| && bs[k] == e.batch;
      FlattenMember(bs, k, w);
      assert w in Elements(Flatten(bs));
      assert w in Elements(candidates);
    }
  }

  /** Reload and restart batches hold only workers classified so. */
  lemma UpdateEvents(rows: Rows, c: JobConf, world: World, t: nat)
    requires ConfOk(rows, c)
    ensures forall e, w :: e in UpdatePhase(rows, c, false, world, t).log && w in e.batch ==>
              w in rows && NeedsWork(rows[w]) && !IsNew(rows[w]) && e.action == UpdateAction(rows[w], c)
  {
    hide Phase, NeedingRestart, WorkersFor, UpdateAction, Active, Fate, Touched, NeedsWork, IsNew;
    var updated := NeedingRestart(rows, c, false);
    NeedingRestartFacts(rows, c, false);
    var reloads, restarts := WorkersFor(Reload, rows, c, updated), WorkersFor(Restart, rows, c, updated);
    WorkersForFacts(Reload, rows, c, updated);
    WorkersForFacts(Restart, rows, c, updated);
    PhaseFacts(rows, c, Reload, reloads, RestartLimit(c), false, world, t);
    PhaseEvents(rows, c, Reload, reloads, RestartLimit(c), false, world, t);
    var r := Phase(rows, c, Reload, reloads, RestartLimit(c), false, world, t);
    if r.ok {
      forall x | x in restarts
        ensures x in r.rows && Active(r.rows[x])
      {
        FateKeepsFlags(rows[x], x, r.log);
      }
      PhaseEvents(r.rows, c, Restart, restarts, RestartLimit(c), false, world, r.t);
    }
  }

  /** Every event of a non-force deploy, failing or not, carries each of its workers' own action. */
  lemma OnlyItsAction(rows: Rows, c: JobConf, world: World)
    requires ConfOk(rows, c)
    ensures forall e, w :: e in DeployJob(rows, c, false, world).log && w in e.batch ==>
              w in rows && NeedsWork(rows[w]) && e.action == FirstAction(rows[w], c)
  {
    hide Phase, UpdatePhase, NewWorkers, UpdateAction, Active, IsNew, NeedsWork, Promote, JobNeedsRollout;
    NewWorkersFacts(rows, c);
    var started := NewWorkers(rows, c);
    forall x | x in rows && IsNew(rows[x])
      ensures Active(rows[x]) && NeedsWork(rows[x])
    {
      NewHasPlan(rows[x]);
    }
    PhaseEvents(rows, c, Start, started, c.maxStarts, false, world, 0);
    var r := StartPhase(rows, c, false, world);
    if r.ok {
      StartedRows(rows, c, false, world);
      UpdateEvents(r.rows, c, world, r.t);
      forall x | x in rows && IsNew(rows[x])
        ensures !NeedsWork(r.rows[x])
      {
        PromotedIsIdle(rows[x]);
      }
    }
  }

  lemma {:induction false} TouchedEvent(kind: EventKind, log: seq<Event>, w: string) returns (e: Event)
    requires w in Touched(kind, log)
    ensures e in log && e.kind == kind && w in e.batch
  {
    if w in TouchedBy(kind, log[0]) {
      e := log[0];
    } else {
      e := TouchedEvent(kind, log[1..], w);
    }
  }

  /** A gate that fails leaves its allocation marked, and its action was the allocation's own. */
  lemma FailedAttempt(rows: Rows, c: JobConf, world: World, w: string)
    requires ConfOk(rows, c) && w in rows && w in Touched(Failing, DeployJob(rows, c, false, world).log)
    ensures var r := DeployJob(rows, c, false, world);
            !r.ok && r.rows[w] == Marked(rows[w]) && exists e :: e in r.log && e.kind == Failing && w in e.batch
                                                                && e.action == FirstAction(rows[w], c)
    ensures NeedsWork(rows[w])
  {
    hide Lifecycle, Touched, FirstAction, NeedsWork, JobNeedsRollout, Promote, MarkHealthFailed;
    LogTouches(Failing, Start, []);
    LifecycleTracks(rows, c, false, world);
    OnlyItsAction(rows, c, world);
    var e := TouchedEvent(Failing, DeployJob(rows, c, false, world).log, w);
  }

  /** A run over a marked row: a gate judges it exactly when the policy is not never; either way a successful run
      ends with the row promoted. */
  lemma RetryGatedExactly(rows: Rows, c: JobConf, world: World, w: string, a: Allocation)
    requires ConfOk(rows, c) && Staged(a) && Active(a) && w in rows && rows[w] == Marked(a)
    requires DeployJob(rows, c, false, world).ok
    ensures w in Touched(Passing, DeployJob(rows, c, false, world).log) <==> c.policy != Never
    ensures ActionsOn(DeployJob(rows, c, false, world).log, w) ==
            if c.policy == Never then [] else [UpdateAction(rows[w], c)]
    ensures DeployJob(rows, c, false, world).rows[w] == Promote(a)
  {
    hide Lifecycle, Touched, UpdateAction, ActionsOn, Promote, IsNew, NeedsWork, JobNeedsRollout;
    RetryAction(a, c);
    MarkedFlags(a);
    PromoteAfterFailure(a);
    WorkNeedsRollout(rows, w);
    SuccessPromotesAll(rows, c, false, world);
    LifecycleFacts(rows, c, world);
    LifecycleActions(rows, c, false, world, w);
  }

  lemma MarkedFlags(a: Allocation)
    requires Staged(a) && Active(a)
    ensures Active(Marked(a)) && NeedsWork(Marked(a)) && !Marked(a).removed
  {
  }

  /** Two runs: the retry that succeeds performs the action that failed exactly when the guards of the first
      attempt hold. */
  lemma RetryOverRuns(rows: Rows, c: JobConf, world: World, again: World, w: string)
    requires ConfOk(rows, c) && w in rows && Staged(rows[w])
    requires w in Touched(Failing, DeployJob(rows, c, false, world).log)
    requires DeployJob(DeployJob(rows, c, false, world).rows, c, false, again).ok
    ensures var retry := DeployJob(DeployJob(rows, c, false, world).rows, c, false, again);
            ActionsOn(retry.log, w) == [FirstAction(rows[w], c)] <==> Repeats(rows[w], c)
  {
    hide DeployJob, Touched, UpdateAction, ActionsOn, NeedsWork, Repeats, Marked, FirstAction;
    FailedAttempt(rows, c, world, w);
    WorkIsActive(rows[w]);
    var after := DeployJob(rows, c, false, world).rows;
    RetryGatedExactly(after, c, again, w, rows[w]);
    RetryRepeatsExactly(rows[w], c);
    RetryAction(rows[w], c);
    ActedAction(rows, c, world, w);
  }

  /** What failed was a lifecycle action, never a sync. */
  lemma ActedAction(rows: Rows, c: JobConf, world: World, w: string)
    requires ConfOk(rows, c) && w in rows && w in Touched(Failing, DeployJob(rows, c, false, world).log)
    ensures FirstAction(rows[w], c) in {Start, Reload, Restart}
  {
    hide Lifecycle, Touched, UpdateAction, IsNew, NeedsWork, JobNeedsRollout;
    LogTouches(Failing, Start, []);
    LifecycleFacts(rows, c, world);
  }

  // ---- A failed start that is never judged again ----

  ghost predicate GateFails(world: World) {
    forall t: nat :: world(t) == Outcome(true, true, true, false)
  }

  /** Under policy never a start whose gate fails is promoted by the next deploy, which acts on nothing and asks
      no gate; the job then needs no rollout. */
  lemma UngatedPromotion(world: World, again: World)
    requires GateFails(world) && AllGood(again)
    ensures var rows := map["w" := Fresh];
            var c := JobConf(Never, [], [], 1, 1, 1, ["w"], ["w"], None);
            var first := DeployJob(rows, c, false, world);
            var retry := DeployJob(first.rows, c, false, again);
            && !first.ok && "w" in Touched(Failing, first.log)
            && retry.ok && ActionsOn(retry.log, "w") == [] && "w" !in Touched(Passing, retry.log)
            && retry.rows["w"] == Promote(Fresh) && !JobNeedsRollout(retry.rows)
  {
    hide DeployJob, Touched, ActionsOn, JobNeedsRollout, Promote, Marked;
    var rows := map["w" := Fresh];
    var c := JobConf(Never, [], [], 1, 1, 1, ["w"], ["w"], None);
    assert ConfOk(rows, c);
    StartFails(rows, c, world);
    FailedAttempt(rows, c, world, "w");
    var first := DeployJob(rows, c, false, world);
    GoodWorldSucceeds(first.rows, c, false, again);
    RetryGatedExactly(first.rows, c, again, "w", Fresh);
    MarkedReady(first.rows);
    SuccessPromotesAll(first.rows, c, false, again);
  }

  lemma MarkedReady(rows: Rows)
    requires rows.Keys == {"w"} && rows["w"] == Marked(Fresh)
    ensures Ready(rows)
  {
  }

  /** A single new worker is one start batch. */
  lemma StartFails(rows: Rows, c: JobConf, world: World)
    requires rows == map["w" := Fresh] && ConfOk(rows, c) && GateFails(world)
    ensures "w" in Touched(Failing, DeployJob(rows, c, false, world).log)
  {
    hide Touched, PromoteRows, MarkRows, OrderedBatches, Flatten, FailedLog, PassedLog;
    assert IsNew(rows["w"]);
    NewWorkersFacts(rows, c);
    var started := NewWorkers(rows, c);
    OrderedBatchesFacts(rows, c, started, c.maxStarts);
    var bs := OrderedBatches(rows, c, started, c.maxStarts);
    assert "w" in started;
    assert "w" in Elements(Flatten(bs));
    if bs == [] {
      NothingFlat();
      assert false;
    }
    FlattenMember(bs, 0, bs[0][0]);
    assert bs[0][0] in Elements(Flatten(bs));
    assert bs[0][0] == "w";
    LogTouches(Failing, Start, bs[0]);
    WorkNeedsRollout(rows, "w");
  }
}
