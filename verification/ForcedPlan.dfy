/** The dry run under force against what a forced deploy does (deploy/dry_run.go, deploy/allocations.go). */
module ForcedPlan {
  import opened Prelude
  import opened Manifest
  import opened Catalog
  import opened RolloutPolicy
  import opened Rollout
  import opened RolloutFacts
  import opened DeployTheorems
  import opened DryRun
  import opened Retry

  /** Classifying a row by its files comes to what a version change alone would. */
  predicate SameAsVersionOnly(a: Allocation, c: JobConf) {
    var changed := Diff(AppliedFiles(a), PendingFiles(a));
    || (changed != {} && forall p :: p in changed ==> GlobMatch(HooksGlob, p))
    || match c.policy
       case Never => true
       case Unknown => true
       case Always => c.reloadGlobs == [] || forall p :: p in changed ==> MatchesAny(c.reloadGlobs, p)
       case OnReload => forall p :: p in changed ==> !MatchesAny(c.restartGlobs, p)
  }

  /** When the plan under force is right: a new allocation is started and then acted on again unless the policy is
      never, and the plan of an unchanged one with a new version looks at its files while the run does not. */
  predicate ForcedAgrees(a: Allocation, c: JobConf) {
    if IsNew(a) then c.policy == Never
    else ContentPending(a) || !NeedsVersion(a) || SameAsVersionOnly(a, c)
  }

  lemma VersionOnlyAction(a: Allocation, c: JobConf)
    requires a.plan.Some? && a.plan.value.applied.Some?
    ensures Resolve(a, c, false, false) == Resolve(a, c, false, true) <==> SameAsVersionOnly(a, c)
  {
    hide MatchesAny, OnlyHooksChanged, MatchAny, MatchNotAny, Diff, AppliedFiles, PendingFiles;
    var changed := Diff(AppliedFiles(a), PendingFiles(a));
    OnlyHooksMeansAll(changed);
    NoneMatch(c.reloadGlobs, changed);
    NoneMatch(c.restartGlobs, changed);
    forall p
      ensures c.restartGlobs == [] ==> !MatchesAny(c.restartGlobs, p)
    {
      NoGlobsMatch(p);
    }
  }

  lemma ForcedPlanned(a: Allocation, c: JobConf)
    requires Active(a) && a.plan.Some? && !IsNew(a)
    ensures PlanActive(a, c, true).action ==
            if ContentPending(a) then UpdateAction(a, c) else Resolve(a, c, false, false)
    ensures UpdateAction(a, c) == Resolve(a, c, ContentPending(a), NeedsVersion(a) && !ContentPending(a))
  {
    hide AppliedFiles, PendingFiles, ResolveUpdateAction;
  }

  lemma ResolveKind(a: Allocation, c: JobConf, hashChanged: bool, versionOnly: bool)
    ensures Resolve(a, c, hashChanged, versionOnly) in {Reload, Restart, Sync}
  {
    hide AppliedFiles, PendingFiles, OnlyHooksChanged, MatchAny, MatchNotAny, Diff;
  }

  lemma JustStarted(a: Allocation, c: JobConf)
    requires IsNew(a)
    ensures UpdateAction(Promote(a), c) == Sync <==> c.policy == Never
  {
    hide PromoteFiles;
    PromotedManifests(a);
    DiffEmpty(AppliedFiles(Promote(a)), PendingFiles(Promote(a)));
  }

  /** In a successful forced deploy every active, staged allocation gets an action, and what is performed on it is
      what the dry run announces exactly under those guards. */
  lemma ForcedPlanAgreesExactly(rows: Rows, c: JobConf, world: World, w: string)
    requires ConfOk(rows, c) && w in rows && Active(rows[w]) && rows[w].plan.Some?
    requires DeployJob(rows, c, true, world).ok
    ensures var planned := PlanActive(rows[w], c, true).action;
            && planned != Skip
            && (ActionsOn(DeployJob(rows, c, true, world).log, w) == (if planned == Sync then [] else [planned])
                <==> ForcedAgrees(rows[w], c))
  {
    hide Lifecycle, UpdateAction, ActionsOn, Promote, ContentPending, NeedsVersion, SameAsVersionOnly, Resolve;
    var a := rows[w];
    LifecycleActions(rows, c, true, world, w);
    if IsNew(a) {
      PromotedIsIdle(a);
      JustStarted(a, c);
      UpdateActionKind(Promote(a), c);
    } else {
      ForcedPlanned(a, c);
      UpdateActionKind(a, c);
      ResolveKind(a, c, false, false);
      VersionOnlyAction(a, c);
      var taken, planned := UpdateAction(a, c), PlanActive(a, c, true).action;
      assert ActionsOn(DeployJob(rows, c, true, world).log, w) == if taken == Sync then [] else [taken];
      assert taken == planned <==> ForcedAgrees(a, c);
      assert taken != planned ==>
          (if taken == Sync then [] else [taken]) != (if planned == Sync then [] else [planned]);
    }
  }

  /** An allocation just created: announced as a start, started and restarted. */
  lemma StartedTwice(world: World)
    requires AllGood(world)
    ensures var rows := map["w" := Fresh];
            var c := JobConf(Always, [], [], 1, 1, 1, ["w"], ["w"], None);
            && PlanActive(Fresh, c, true).action == Start
            && DeployJob(rows, c, true, world).ok
            && ActionsOn(DeployJob(rows, c, true, world).log, "w") == [Start, Restart]
  {
    hide DeployJob, ActionsOn, UpdateAction;
    var rows := map["w" := Fresh];
    var c := JobConf(Always, [], [], 1, 1, 1, ["w"], ["w"], None);
    GoodWorldSucceeds(rows, c, true, world);
    assert IsNew(Fresh) && ConfOk(rows, c);
    ForceActsAgain(rows, c, world, "w");
    StartedRestarts(c);
  }

  lemma StartedRestarts(c: JobConf)
    requires c.policy == Always && c.reloadGlobs == []
    ensures UpdateAction(Promote(Fresh), c) == Restart
  {
    assert AppliedFiles(Promote(Fresh)) == map[] == PendingFiles(Promote(Fresh));
    DiffEmpty(AppliedFiles(Promote(Fresh)), PendingFiles(Promote(Fresh)));
  }
}
