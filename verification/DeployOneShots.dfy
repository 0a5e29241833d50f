/** How many allocations of one deploy are told they are the one (deploy/rollout.go, hooks/kive.py): batch indexes
    start again at zero in every phase. */
module DeployOneShots {
  import opened Prelude
  import opened Manifest
  import opened Catalog
  import opened Batches
  import opened RolloutPolicy
  import opened Rollout
  import opened RolloutFacts
  import opened RolloutPacing
  import opened DeployTheorems
  import opened DryRun
  import opened DeployAgenda
  import OneShot

  // ---- The batches of a log ----

  ghost function BatchOf(e: Event, action: Action): seq<seq<string>> {
    if e.kind == Hooking && e.action == action then [e.batch] else []
  }

  /** The batches whose hooks were started after this action, in order. */
  ghost function HookedBatches(log: seq<Event>, action: Action): seq<seq<string>> {
    if log == [] then [] else BatchOf(log[0], action) + HookedBatches(log[1..], action)
  }

  lemma {:induction false} HookedConcat(a: seq<Event>, b: seq<Event>, action: Action)
    ensures HookedBatches(a + b, action) == HookedBatches(a, action) + HookedBatches(b, action)
  {
    hide BatchOf;
    if a == [] {
      assert a + b == b;
    } else {
      HookedConcat(a[1..], b, action);
      assert (a + b)[0] == a[0] && (a + b)[1..] == a[1..] + b;
      Regroup(BatchOf(a[0], action), HookedBatches(a[1..], action), HookedBatches(b, action));
    }
  }

  lemma HookedTwo(e1: Event, e2: Event, action: Action)
    ensures HookedBatches([e1, e2], action) == BatchOf(e1, action) + BatchOf(e2, action)
  {
    hide BatchOf;
    assert [e1, e2][1..] == [e2] && [e2][1..] == [];
    assert HookedBatches([e2], action) == BatchOf(e2, action);
  }

  /** The batches that belong to an action. */
  function Planned(action: Action, batches: seq<seq<string>>, other: Action): seq<seq<string>> {
    if other == action then batches else []
  }

  lemma LogHooks(action: Action, b: seq<string>, other: Action)
    ensures var hooked := Planned(action, [b], other);
            && HookedBatches(PassedLog(action, b), other) == hooked
            && HookedBatches(FailedLog(action, b), other) == hooked
            && HookedBatches(HookedLog(action, b), other) == hooked
            && HookedBatches([Event(Acting, action, b)], other) == []
            && HookedBatches([], other) == []
  {
    var e1, e2 := Event(Acting, action, b), Event(Promoting, action, b);
    assert [e1][1..] == [];
    HookedTwo(e1, Event(Hooking, action, b), other);
    HookedTwo(e2, Event(Passing, action, b), other);
    HookedTwo(e2, Event(Failing, action, b), other);
    hide HookedBatches;
    HookedConcat(HookedLog(action, b), [e2, Event(Passing, action, b)], other);
    HookedConcat(HookedLog(action, b), [e2, Event(Failing, action, b)], other);
  }

  /** What the first batch adds to a log. */
  lemma FirstBatch(rows: Rows, action: Action, batches: seq<seq<string>>, force: bool, world: World, t: nat)
    requires batches != []
    ensures var r, b := RunBatches(rows, action, batches, force, world, t), batches[0];
            var more := RunBatches(PromoteRows(rows, b), action, batches[1..], force, world, t + 1);
            || (!r.ok && r.log in {[], [Event(Acting, action, b)], HookedLog(action, b), FailedLog(action, b)})
            || (r.ok == more.ok && r.log == PassedLog(action, b) + more.log)
  {
    hide HookedLog, PassedLog, FailedLog, PromoteRows, MarkRows;
  }

  /** A run starts the hooks of its batches in order, of all of them if it succeeds. */
  lemma {:induction false} BatchesHooked(rows: Rows, action: Action, batches: seq<seq<string>>, force: bool,
                                         world: World, t: nat, other: Action)
    ensures var r := RunBatches(rows, action, batches, force, world, t);
            && HookedBatches(r.log, other) <= Planned(action, batches, other)
            && (r.ok ==> HookedBatches(r.log, other) == Planned(action, batches, other))
    decreases |batches|
  {
    if batches == [] {
      LogHooks(action, [], other);
    } else {
      hide RunBatches, HookedLog, PassedLog, FailedLog, PromoteRows, HookedBatches, Planned;
      var b, promoted := batches[0], PromoteRows(rows, batches[0]);
      var more := RunBatches(promoted, action, batches[1..], force, world, t + 1);
      LogHooks(action, b, other);
      FirstBatch(rows, action, batches, force, world, t);
      BatchesHooked(promoted, action, batches[1..], force, world, t + 1, other);
      HookedConcat(PassedLog(action, b), more.log, other);
      OneMore(action, batches, other, HookedBatches(more.log, other));
    }
  }

  lemma OneMore(action: Action, batches: seq<seq<string>>, other: Action, hooked: seq<seq<string>>)
    requires batches != []
    ensures var first, all := Planned(action, [batches[0]], other), Planned(action, batches, other);
            && [] <= first <= all
            && (hooked <= Planned(action, batches[1..], other) ==> first + hooked <= all)
            && (hooked == Planned(action, batches[1..], other) ==> first + hooked == all)
  {
    assert batches == [batches[0]] + batches[1..];
  }

  /** The phase is begun: those before it succeeded. */
  ghost predicate Reached(rows: Rows, c: JobConf, force: bool, world: World, action: Action) {
    var r := StartPhase(rows, c, force, world);
    var reloads := WorkersFor(Reload, r.rows, c, NeedingRestart(r.rows, c, force));
    match action
    case Start => true
    case Reload => r.ok
    case Restart => r.ok && Phase(r.rows, c, Reload, reloads, RestartLimit(c), force, world, r.t).ok
    case _ => false
  }

  /** A run starts hooks for the planned batches in order, of a whole phase before the next begins, and of all of them
      if it succeeds. */
  lemma LoggedBatches(rows: Rows, c: JobConf, force: bool, world: World, action: Action)
    ensures var r, planned := Lifecycle(rows, c, force, world), PlannedBatches(rows, c, force, world, action);
            var hooked := HookedBatches(r.log, action);
            && hooked <= planned
            && (r.ok ==> hooked == planned)
            && (!Reached(rows, c, force, world, action) ==> hooked == [])
            && (action == Start && Reached(rows, c, force, world, Reload) ==> hooked == planned)
            && (action == Reload && Reached(rows, c, force, world, Restart) ==> hooked == planned)
  {
    hide RunBatches, OrderedBatches, NewWorkers, NeedingRestart, WorkersFor, HookedBatches;
    RunHooks(rows, c, force, world, action);
    var starts := OrderedBatches(rows, c, NewWorkers(rows, c), c.maxStarts);
    var r := StartPhase(rows, c, force, world);
    var updated := NeedingRestart(r.rows, c, force);
    var reloads := OrderedBatches(r.rows, c, WorkersFor(Reload, r.rows, c, updated), RestartLimit(c));
    var r1 := RunBatches(r.rows, Reload, reloads, force, world, r.t);
    var restarts := OrderedBatches(r1.rows, c, WorkersFor(Restart, r.rows, c, updated), RestartLimit(c));
    hide Lifecycle;
    BatchesHooked(rows, Start, starts, force, world, 0, action);
    BatchesHooked(r.rows, Reload, reloads, force, world, r.t, action);
    BatchesHooked(r1.rows, Restart, restarts, force, world, r1.t, action);
  }

  /** The hooks a run starts are those of the phases it reaches. */
  lemma RunHooks(rows: Rows, c: JobConf, force: bool, world: World, action: Action)
    ensures var r := StartPhase(rows, c, force, world);
            var updated := NeedingRestart(r.rows, c, force);
            var reloads, restarts := WorkersFor(Reload, r.rows, c, updated), WorkersFor(Restart, r.rows, c, updated);
            var r1 := Phase(r.rows, c, Reload, reloads, RestartLimit(c), force, world, r.t);
            var r2 := Phase(r1.rows, c, Restart, restarts, RestartLimit(c), force, world, r1.t);
            && HookedBatches(Lifecycle(rows, c, force, world).log, action) ==
               HookedBatches(r.log, action)
               + (if r.ok then HookedBatches(r1.log, action) else [])
               + (if r.ok && r1.ok then HookedBatches(r2.log, action) else [])
            && Lifecycle(rows, c, force, world).ok == (r.ok && r1.ok && r2.ok)
  {
    hide Phase, NewWorkers, NeedingRestart, WorkersFor, HookedBatches;
    var r := StartPhase(rows, c, force, world);
    var updated := NeedingRestart(r.rows, c, force);
    var reloads, restarts := WorkersFor(Reload, r.rows, c, updated), WorkersFor(Restart, r.rows, c, updated);
    var r1 := Phase(r.rows, c, Reload, reloads, RestartLimit(c), force, world, r.t);
    var r2 := Phase(r1.rows, c, Restart, restarts, RestartLimit(c), force, world, r1.t);
    HookedConcat(r1.log, r2.log, action);
    HookedConcat(r.log, r1.log, action);
    HookedConcat(r.log, r1.log + r2.log, action);
  }

  // ---- The hooks of one phase ----

  /** The hook batches of a phase, numbered from zero. */
  function HookBatches(h: OneShot.Hook, hooked: seq<seq<string>>, count: nat): seq<OneShot.BatchContext> {
    seq(|hooked|, k requires 0 <= k < |hooked| =>
      OneShot.Context(h, hooked[k], k, count))
  }

  ghost function BatchEnvs(h: OneShot.Hook, hooked: seq<seq<string>>, count: nat): seq<OneShot.Env> {
    OneShot.AllEnvs(h, HookBatches(h, hooked, count))
  }

  /** However many of its batches a phase gets to, there is one one-shot if there is any. */
  lemma PhaseOneShots(rows: Rows, c: JobConf, candidates: seq<string>, limit: int, h: OneShot.Hook,
                      hooked: seq<seq<string>>)
    requires OneShot.Separate(h) && OneShot.Addresses(candidates)
    requires Distinct(candidates) && Distinct(c.catalog)
    requires forall w :: w in candidates ==> w in rows && Active(rows[w])
    requires hooked <= OrderedBatches(rows, c, candidates, limit)
    ensures var bs := OrderedBatches(rows, c, candidates, limit);
            && OneShot.Count(BatchEnvs(h, hooked, |bs|)) == (if hooked == [] then 0 else 1)
            && (bs == [] <==> candidates == [])
  {
    hide OrderedBatches, Flatten, Active, OneShot.AllEnvs, OneShot.Count, OneShot.PlainAddress, OneShot.Separate;
    var bs := OrderedBatches(rows, c, candidates, limit);
    OrderedBatchesFacts(rows, c, candidates, limit);
    forall k, w | 0 <= k < |bs| && w in bs[k]
      ensures w in candidates
    {
      FlattenMember(bs, k, w);
      assert w in Elements(Flatten(bs));
      assert w in Elements(candidates);
    }
    var contexts := HookBatches(h, hooked, |bs|);
    forall k | 0 <= k < |contexts|
      ensures var x := contexts[k];
              x.batchIndex == k && x.batchAllocation != [] && OneShot.Addresses(x.batchAllocation)
              && Distinct(x.batchAllocation)
    {
      assert hooked[k] == bs[k];
      BatchDistinct(bs, k);
    }
    OneShot.CountFrom(h, contexts, 0);
    assert contexts[0..] == contexts;
    NothingFlat();
    assert candidates != [] ==> candidates[0] in Elements(candidates);
    assert bs != [] ==> bs[0][0] in candidates;
  }

  // ---- Counting ----

  /** The environments of the hooks that a deploy starts after this action: each phase numbers its batches from
      zero. */
  ghost function HookEnvs(rows: Rows, c: JobConf, force: bool, world: World, h: OneShot.Hook, action: Action)
    : seq<OneShot.Env>
  {
    BatchEnvs(h, HookedBatches(DeployJob(rows, c, force, world).log, action),
              |PlannedBatches(rows, c, force, world, action)|)
  }

  /** The event of reloads and restarts is one. */
  ghost function RestartedEnvs(rows: Rows, c: JobConf, force: bool, world: World, h: OneShot.Hook): seq<OneShot.Env> {
    HookEnvs(rows, c, force, world, h, Reload) + HookEnvs(rows, c, force, world, h, Restart)
  }

  /** Some allocation gets this action once new ones have been started. */
  ghost predicate AnyGets(rows: Rows, c: JobConf, force: bool, action: Action) {
    exists w :: w in rows && Gets(Started(rows[w]), c, force, action)
  }

  ghost predicate AnyNew(rows: Rows) {
    exists w :: w in rows && IsNew(rows[w])
  }

  lemma CandidatesOf(rows: Rows, c: JobConf, force: bool, world: World, action: Action)
    requires ConfOk(rows, c) && StartPhase(rows, c, force, world).ok
    ensures var r := StartPhase(rows, c, force, world);
            var ws := WorkersFor(action, r.rows, c, NeedingRestart(r.rows, c, force));
            && Distinct(ws) && (forall w :: w in ws ==> w in rows && Active(r.rows[w]))
            && (ws == [] <==> !AnyGets(rows, c, force, action))
  {
    hide Phase, NewWorkers, NeedingRestart, WorkersFor, UpdateAction, Active, IsNew, NeedsWork, Promote;
    StartedRows(rows, c, force, world);
    var r := StartPhase(rows, c, force, world);
    var updated := NeedingRestart(r.rows, c, force);
    NeedingRestartFacts(r.rows, c, force);
    WorkersForFacts(action, r.rows, c, updated);
    var ws := WorkersFor(action, r.rows, c, updated);
    forall w | w in rows
      ensures w in ws <==> Gets(Started(rows[w]), c, force, action)
    {
    }
    if ws != [] {
      assert ws[0] in ws;
    }
  }

  lemma StartCandidates(rows: Rows, c: JobConf)
    requires ConfOk(rows, c)
    ensures var ws := NewWorkers(rows, c);
            && Distinct(ws) && (forall w :: w in ws ==> w in rows && Active(rows[w]))
            && (ws == [] <==> !AnyNew(rows))
  {
    hide NewWorkers, IsNew, Active;
    NewWorkersFacts(rows, c);
    var ws := NewWorkers(rows, c);
    forall w | w in ws
      ensures Active(rows[w])
    {
      NewHasPlan(rows[w]);
    }
    if ws != [] {
      assert ws[0] in ws;
    }
  }

  /** Each phase of a run has one one-shot if it gets to the hooks of any batch. */
  lemma PhaseCounts(rows: Rows, c: JobConf, force: bool, world: World, h: OneShot.Hook, action: Action)
    requires OneShot.Separate(h) && ConfOk(rows, c) && forall w :: w in rows ==> OneShot.PlainAddress(w)
    requires action in {Start, Reload, Restart}
    ensures var planned := PlannedBatches(rows, c, force, world, action);
            var hooked := HookedBatches(Lifecycle(rows, c, force, world).log, action);
            && OneShot.Count(BatchEnvs(h, hooked, |planned|)) == (if hooked == [] then 0 else 1)
            && (Reached(rows, c, force, world, action) ==>
                  (planned == [] <==> if action == Start then !AnyNew(rows) else !AnyGets(rows, c, force, action)))
  {
    hide Lifecycle, Phase, NeedingRestart, WorkersFor, NewWorkers, Active, IsNew, BatchEnvs, AnyGets, AnyNew,
         OneShot.Count, OneShot.PlainAddress, OneShot.Separate, Fate, Touched, OrderedBatches, HookedBatches;
    LoggedBatches(rows, c, force, world, action);
    var hooked := HookedBatches(Lifecycle(rows, c, force, world).log, action);
    if !Reached(rows, c, force, world, action) {
      NoEnvs(h, |PlannedBatches(rows, c, force, world, action)|);
    } else if action == Start {
      StartCandidates(rows, c);
      PhaseOneShots(rows, c, NewWorkers(rows, c), c.maxStarts, h, hooked);
    } else {
      CandidatesOf(rows, c, force, world, Reload);
      var r := StartPhase(rows, c, force, world);
      var updated := NeedingRestart(r.rows, c, force);
      var reloads := WorkersFor(Reload, r.rows, c, updated);
      if action == Reload {
        PhaseOneShots(r.rows, c, reloads, RestartLimit(c), h, hooked);
      } else {
        CandidatesOf(rows, c, force, world, Restart);
        PhaseFacts(r.rows, c, Reload, reloads, RestartLimit(c), force, world, r.t);
        var r1 := Phase(r.rows, c, Reload, reloads, RestartLimit(c), force, world, r.t);
        var restarts := WorkersFor(Restart, r.rows, c, updated);
        forall w | w in restarts
          ensures w in r1.rows && Active(r1.rows[w])
        {
          FateKeepsFlags(r.rows[w], w, r1.log);
        }
        PhaseOneShots(r1.rows, c, restarts, RestartLimit(c), h, hooked);
      }
    }
  }

  lemma NoEnvs(h: OneShot.Hook, count: nat)
    ensures OneShot.Count(BatchEnvs(h, [], count)) == 0
  {
    assert HookBatches(h, [], count) == [];
  }

  lemma NothingHooked(action: Action)
    ensures HookedBatches([], action) == []
  {
  }

  /** Every deploy, forced or not, failing or not, has one one-shot among its start hooks if it gets to any, and among
      its restart hooks one for reloads and one for restarts, if it gets to any. So two allocations believe they are
      the one exactly when something is reloaded and the deploy gets to the hooks of a restart batch. A deploy that
      succeeds gets to all of them. */
  lemma DeployOneShotCount(rows: Rows, c: JobConf, force: bool, world: World, h: OneShot.Hook)
    requires OneShot.Separate(h) && ConfOk(rows, c) && forall w :: w in rows ==> OneShot.PlainAddress(w)
    ensures var r := DeployJob(rows, c, force, world);
            var starts, reloads := HookedBatches(r.log, Start), HookedBatches(r.log, Reload);
            var restarts, envs := HookedBatches(r.log, Restart), RestartedEnvs(rows, c, force, world, h);
            && OneShot.Count(HookEnvs(rows, c, force, world, h, Start)) == (if starts == [] then 0 else 1)
            && OneShot.Count(envs) == (if reloads == [] then 0 else 1) + (if restarts == [] then 0 else 1)
            && (OneShot.Count(envs) > 1 <==> AnyGets(rows, c, force, Reload) && restarts != [])
            && (r.ok && (force || JobNeedsRollout(rows)) ==>
                  && (starts != [] <==> AnyNew(rows))
                  && (reloads != [] <==> AnyGets(rows, c, force, Reload))
                  && (restarts != [] <==> AnyGets(rows, c, force, Restart)))
  {
    hide Lifecycle, BatchEnvs, HookedBatches, PlannedBatches, AnyGets, AnyNew, OneShot.Count, OneShot.PlainAddress,
         OneShot.Separate, JobNeedsRollout, Reached;
    forall action | action in {Start, Reload, Restart}
      ensures OneShot.Count(HookEnvs(rows, c, force, world, h, action)) ==
              if HookedBatches(DeployJob(rows, c, force, world).log, action) == [] then 0 else 1
    {
      PhaseCounts(rows, c, force, world, h, action);
      NothingHooked(action);
      NoEnvs(h, |PlannedBatches(rows, c, force, world, action)|);
    }
    OneShot.CountConcat(HookEnvs(rows, c, force, world, h, Reload), HookEnvs(rows, c, force, world, h, Restart));
    NothingHooked(Restart);
    if force || JobNeedsRollout(rows) {
      HookedWhen(rows, c, force, world, h);
    }
  }

  /** Which hooks a run gets to. */
  lemma HookedWhen(rows: Rows, c: JobConf, force: bool, world: World, h: OneShot.Hook)
    requires OneShot.Separate(h) && ConfOk(rows, c) && forall w :: w in rows ==> OneShot.PlainAddress(w)
    ensures var r := Lifecycle(rows, c, force, world);
            && (HookedBatches(r.log, Restart) != [] ==>
                  (HookedBatches(r.log, Reload) != [] <==> AnyGets(rows, c, force, Reload)))
            && (r.ok ==>
                  && (HookedBatches(r.log, Start) != [] <==> AnyNew(rows))
                  && (HookedBatches(r.log, Reload) != [] <==> AnyGets(rows, c, force, Reload))
                  && (HookedBatches(r.log, Restart) != [] <==> AnyGets(rows, c, force, Restart)))
  {
    hide BatchEnvs, HookedBatches, PlannedBatches, AnyGets, AnyNew, OneShot.Count, OneShot.PlainAddress,
         OneShot.Separate, Phase, NewWorkers, NeedingRestart, WorkersFor;
    forall action | action in {Start, Reload, Restart}
      ensures var planned := PlannedBatches(rows, c, force, world, action);
              var hooked := HookedBatches(Lifecycle(rows, c, force, world).log, action);
              && (Lifecycle(rows, c, force, world).ok ==> hooked == planned)
              && (!Reached(rows, c, force, world, action) ==> hooked == [])
              && (action == Reload && Reached(rows, c, force, world, Restart) ==> hooked == planned)
              && (Reached(rows, c, force, world, action) ==>
                    (planned == [] <==> if action == Start then !AnyNew(rows) else !AnyGets(rows, c, force, action)))
    {
      LoggedBatches(rows, c, force, world, action);
      PhaseCounts(rows, c, force, world, h, action);
    }
  }

  /** A worker whose gate failed, and one with a changed file "x". */
  const Failed: Allocation := Allocation(
    false, false, None, Some(PlanRow(Tree([]), Some(HealthFailed), Some("0.0.0"))), map[])
  const Changed: Allocation := Allocation(
    false, false, None, Some(PlanRow(Tree(["2"]), Some(Tree(["1"])), Some("0.0.0"))),
    map["x" := FileRow(Some("2"), Some("1"))])

  lemma FailedReloads(c: JobConf)
    requires c.policy == OnReload && c.restartGlobs == ["x"]
    ensures !IsNew(Failed) && NeedsWork(Failed) && UpdateAction(Failed, c) == Reload
  {
    assert AppliedFiles(Failed) == map[] == PendingFiles(Failed);
    DiffEmpty(AppliedFiles(Failed), PendingFiles(Failed));
  }

  lemma ChangedRestarts(c: JobConf)
    requires c.policy == OnReload && c.restartGlobs == ["x"] && GlobMatch("x", "x") && !GlobMatch(HooksGlob, "x")
    ensures !IsNew(Changed) && NeedsWork(Changed) && UpdateAction(Changed, c) == Restart
  {
    hide OnlyHooksChanged;
    var changed := Diff(AppliedFiles(Changed), PendingFiles(Changed));
    assert "x" in changed;
    OnlyHooksMeansAll(changed);
    assert "x" in c.restartGlobs;
    assert "x" in MatchAny(c.restartGlobs, changed);
  }

  /** Deployed together under the reload policy, with "x" a restart path, each believes it is the one. */
  lemma TwoOneShots(world: World, h: OneShot.Hook)
    requires AllGood(world) && OneShot.Separate(h) && GlobMatch("x", "x") && !GlobMatch(HooksGlob, "x")
    ensures var rows := map["a" := Failed, "b" := Changed];
            var c := JobConf(OnReload, ["x"], [], 1, 1, 1, ["a", "b"], ["a", "b"], None);
            && DeployJob(rows, c, false, world).ok
            && OneShot.Count(RestartedEnvs(rows, c, false, world, h)) == 2
  {
    hide DeployJob, RestartedEnvs, OneShot.Count, UpdateAction, NeedsWork, IsNew, Active;
    var rows := map["a" := Failed, "b" := Changed];
    var c := JobConf(OnReload, ["x"], [], 1, 1, 1, ["a", "b"], ["a", "b"], None);
    FailedReloads(c);
    ChangedRestarts(c);
    GoodWorldSucceeds(rows, c, false, world);
    WorkNeedsRollout(rows, "a");
    assert rows["a"] == Failed && rows["b"] == Changed;
    assert OneShot.PlainAddress("a") && OneShot.PlainAddress("b");
    WorkIsActive(Failed);
    WorkIsActive(Changed);
    assert Gets(Failed, c, false, Reload) && Gets(Changed, c, false, Restart);
    DeployOneShotCount(rows, c, false, world, h);
  }
}
