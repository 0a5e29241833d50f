/** A job's rows over whole histories: deploys of any outcome, builds, jobs stopped by hand and reconciliation, in any
    order (build/build_allocations.go, jobcontrol/allocations.go, deploy/allocations.go). */
module Histories {
  import opened Prelude
  import opened Manifest
  import opened Catalog
  import opened Rollout
  import opened RolloutFacts
  import opened DeployTheorems
  import opened DryRun
  import Versions

  // ---- What happens between deploys ----

  /** A build for one job: the workers its selectors match, those the workspace disables, and the job's version. */
  datatype Spec = Spec(matched: set<string>, disabled: set<string>, version: string)

  /** A row just inserted. */
  const Inserted: Allocation := Allocation(false, false, None, None, map[])

  /** A matched row is replaced by one that is neither removed nor disabled, with the normalised version; the others
      are marked removed. Then the listed workers are disabled. */
  function Placed(a: Allocation, w: string, b: Spec): Allocation {
    var row := if w in b.matched then SetVersion(a, b.version).(removed := false, disabled := false)
               else a.(removed := true);
    if w in b.disabled then row.(disabled := true) else row
  }

  /** A row that was disabled before and is active now is marked start-pending. */
  function BuildRow(a: Allocation, w: string, b: Spec): Allocation {
    if a.disabled && !a.removed && Active(Placed(a, w, b)) then MarkStartPending(Placed(a, w, b)) else Placed(a, w, b)
  }

  function BuildRows(rows: Rows, b: Spec): Rows {
    map w | w in rows.Keys + b.matched :: BuildRow(if w in rows then rows[w] else Inserted, w, b)
  }

  /** After a stop batch its workers are promoted, except the disabled ones; only removed or disabled rows are
      stopped. */
  function StopRow(a: Allocation): Allocation {
    if a.removed && !a.disabled then Promote(a) else a
  }

  /** When the stop batches are done, removed rows lose their hashes; disabled ones keep theirs. */
  function ReconcileRow(a: Allocation): Allocation {
    if a.removed then RemoveHash(a) else a
  }

  function OnWorkers(rows: Rows, ws: set<string>, f: Allocation -> Allocation): Rows {
    map w | w in rows :: if w in ws then f(rows[w]) else rows[w]
  }

  /** `Forget`: workers stopped by hand, to be started again by the next deploy. `Stop` and `Reconcile`: a stop batch
      of reconciliation, and its end, for some of the job's workers. */
  datatype Step =
    | Deploy(attempt: Attempt)
    | Build(spec: Spec)
    | Forget(workers: set<string>)
    | Stop(workers: set<string>)
    | Reconcile(workers: set<string>)

  ghost function Change(rows: Rows, e: Step): Rows {
    match e
    case Deploy(a) => RunOnce(rows, a).rows
    case Build(b) => BuildRows(rows, b)
    case Forget(ws) => OnWorkers(rows, ws, MarkStartPending)
    case Stop(ws) => OnWorkers(rows, ws, StopRow)
    case Reconcile(ws) => OnWorkers(rows, ws, ReconcileRow)
  }

  ghost function History(rows: Rows, es: seq<Step>): Rows
    decreases |es|
  {
    if es == [] then rows else History(Change(rows, es[0]), es[1..])
  }

  /** Each deploy is given the rows as they are. */
  ghost predicate Possible(rows: Rows, es: seq<Step>)
    decreases |es|
  {
    es != [] ==>
      && (es[0].Deploy? ==> ConfOk(rows, es[0].attempt.conf))
      && Possible(Change(rows, es[0]), es[1..])
  }

  /** A stop batch records exactly the removed, enabled allocations as up to date and leaves all others as they are; the
      end of reconciliation forgets exactly the removed ones, and nothing is left of those. */
  lemma StopsExactly(a: Allocation)
    ensures if a.removed && !a.disabled then a.plan.Some? ==> UpToDate(StopRow(a)) else StopRow(a) == a
    ensures if a.removed then ReconcileRow(a).plan == None && ReconcileRow(a).files == map[] else ReconcileRow(a) == a
  {
    hide PromoteFiles;
  }

  // ---- Invariants over every history ----

  lemma BuildRowConsistent(a: Allocation, w: string, b: Spec)
    requires Consistent(a)
    ensures Consistent(BuildRow(a, w, b))
  {
    hide Aggregate;
    var placed := Placed(a, w, b);
    assert PendingFiles(placed) == PendingFiles(a) && AppliedFiles(placed) == AppliedFiles(a);
    assert Consistent(placed);
    OtherOperationsConsistent(placed);
  }

  lemma ChangeConsistent(rows: Rows, e: Step)
    requires AllConsistent(rows) && (e.Deploy? ==> ConfOk(rows, e.attempt.conf))
    ensures AllConsistent(Change(rows, e))
  {
    hide Consistent, BuildRow, MarkStartPending, RemoveHash, Promote, DeployJob, Refresh, ConfOk;
    match e
    case Deploy(a) =>
      RefreshConsistent(rows, a.staged);
      RefreshKeepsConf(rows, a);
      JobConsistent(Refresh(rows, a.staged), a.conf, a.force, a.world);
    case Build(b) =>
      InsertedConsistent();
      forall w | w in rows.Keys + b.matched
        ensures Consistent(BuildRows(rows, b)[w])
      {
        BuildRowConsistent(if w in rows then rows[w] else Inserted, w, b);
      }
    case Forget(ws) =>
      forall w | w in rows
        ensures Consistent(MarkStartPending(rows[w]))
      {
        OtherOperationsConsistent(rows[w]);
      }
    case Stop(ws) =>
      forall w | w in rows
        ensures Consistent(StopRow(rows[w]))
      {
        PromoteConsistent(rows[w]);
      }
    case Reconcile(ws) =>
      forall w | w in rows
        ensures Consistent(ReconcileRow(rows[w]))
      {
        OtherOperationsConsistent(rows[w]);
      }
  }

  lemma InsertedConsistent()
    ensures Consistent(Inserted) && NormalVersions(Inserted)
  {
  }

  lemma RefreshKeepsConf(rows: Rows, a: Attempt)
    requires ConfOk(rows, a.conf)
    ensures ConfOk(Refresh(rows, a.staged), a.conf)
  {
  }

  /** Over every history stored hashes stay the aggregates of the stored manifests. */
  lemma {:induction false} HistoryConsistent(rows: Rows, es: seq<Step>)
    requires AllConsistent(rows) && Possible(rows, es)
    ensures AllConsistent(History(rows, es))
    decreases |es|
  {
    hide AllConsistent, Change, ConfOk;
    if es != [] {
      ChangeConsistent(rows, es[0]);
      HistoryConsistent(Change(rows, es[0]), es[1..]);
    }
  }

  lemma BuildRowNormal(a: Allocation, w: string, b: Spec)
    requires NormalVersions(a)
    ensures NormalVersions(BuildRow(a, w, b))
  {
    hide Versions.Normalize, ClearAppliedFiles;
    Versions.NormalizeIdempotent(b.version);
  }

  lemma ChangeNormal(rows: Rows, e: Step)
    requires AllNormal(rows) && (e.Deploy? ==> ConfOk(rows, e.attempt.conf))
    ensures AllNormal(Change(rows, e))
  {
    hide NormalVersions, BuildRow, MarkStartPending, RemoveHash, Promote, DeployJob, Refresh, ConfOk;
    match e
    case Deploy(a) =>
      RefreshKeepsNormal(rows, a.staged);
      RefreshKeepsConf(rows, a);
      JobKeepsNormal(Refresh(rows, a.staged), a.conf, a.force, a.world);
    case Build(b) =>
      InsertedConsistent();
      forall w | w in rows.Keys + b.matched
        ensures NormalVersions(BuildRows(rows, b)[w])
      {
        BuildRowNormal(if w in rows then rows[w] else Inserted, w, b);
      }
    case Forget(ws) =>
      forall w | w in rows
        ensures NormalVersions(MarkStartPending(rows[w]))
      {
        VersionsStayNormal(rows[w], "", HealthFailed, map[]);
      }
    case Stop(ws) =>
      forall w | w in rows
        ensures NormalVersions(StopRow(rows[w]))
      {
        VersionsStayNormal(rows[w], "", HealthFailed, map[]);
      }
    case Reconcile(ws) =>
      forall w | w in rows
        ensures NormalVersions(ReconcileRow(rows[w]))
      {
        VersionsStayNormal(rows[w], "", HealthFailed, map[]);
      }
  }

  /** Over every history stored versions stay in normal form. */
  lemma {:induction false} HistoryNormal(rows: Rows, es: seq<Step>)
    requires AllNormal(rows) && Possible(rows, es)
    ensures AllNormal(History(rows, es))
    decreases |es|
  {
    hide AllNormal, Change, ConfOk;
    if es != [] {
      ChangeNormal(rows, es[0]);
      HistoryNormal(Change(rows, es[0]), es[1..]);
    }
  }

  // ---- A passed gate over every history ----

  /** The step leaves the worker's content, version and live state alone. */
  ghost predicate Keeps(a: Allocation, w: string, e: Step)
    requires a.plan.Some?
  {
    match e
    case Deploy(t) => !t.force && (a.removed || (w in t.staged && Aggregate(t.staged[w]) == a.plan.value.pending))
    case Build(b) =>
      && TargetVersion(BuildRow(a, w, b)) == TargetVersion(a)
      && !(a.disabled && !a.removed && w in b.matched && w !in b.disabled)
    case Forget(ws) => w !in ws
    case Stop(_) => true
    case Reconcile(ws) => w in ws ==> !a.removed
  }

  /** Outside deploys an allocation stays settled exactly under those guards. */
  lemma KeepsExactly(rows: Rows, w: string, e: Step)
    requires w in rows && Settled(rows[w]) && !e.Deploy?
    ensures Settled(Change(rows, e)[w]) <==> Keeps(rows[w], w, e)
    ensures Keeps(rows[w], w, e) ==>
              Change(rows, e)[w].plan == rows[w].plan && Change(rows, e)[w].files == rows[w].files
  {
    hide PromoteFiles, ClearAppliedFiles, Versions.Normalize;
  }

  ghost predicate KeptThroughout(rows: Rows, es: seq<Step>, w: string)
    decreases |es|
  {
    es != [] ==>
      && w in rows && rows[w].plan.Some? && Keeps(rows[w], w, es[0])
      && KeptThroughout(Change(rows, es[0]), es[1..], w)
  }

  ghost predicate NeverActedOn(rows: Rows, es: seq<Step>, w: string)
    decreases |es|
  {
    es != [] ==>
      && (es[0].Deploy? ==> w !in Touched(Acting, RunOnce(rows, es[0].attempt).log))
      && NeverActedOn(Change(rows, es[0]), es[1..], w)
  }

  /** Safe resume over any history: until its content, version or live state is changed, an allocation whose gate
      passed is never started, reloaded or restarted again, whatever is deployed, built, stopped or reconciled
      around it. */
  lemma {:induction false} SettledOverHistory(rows: Rows, es: seq<Step>, w: string)
    requires Possible(rows, es) && KeptThroughout(rows, es, w)
    requires w in rows && Settled(rows[w])
    ensures var after := History(rows, es);
            w in after && Settled(after[w]) && after[w].plan == rows[w].plan && after[w].files == rows[w].files
    ensures NeverActedOn(rows, es, w)
    decreases |es|
  {
    hide Settled, RunOnce, ConfOk, Touched, BuildRow, MarkStartPending, StopRow, ReconcileRow, Aggregate, Active;
    if es != [] {
      KeptStep(rows, w, es[0]);
      SettledOverHistory(Change(rows, es[0]), es[1..], w);
    }
  }

  lemma KeptStep(rows: Rows, w: string, e: Step)
    requires w in rows && Settled(rows[w]) && Keeps(rows[w], w, e) && (e.Deploy? ==> ConfOk(rows, e.attempt.conf))
    ensures var after := Change(rows, e);
            w in after && Settled(after[w]) && after[w].plan == rows[w].plan && after[w].files == rows[w].files
    ensures e.Deploy? ==> w !in Touched(Acting, RunOnce(rows, e.attempt).log)
  {
    hide Settled, RunOnce, ConfOk, Touched, BuildRow, MarkStartPending, StopRow, ReconcileRow, Aggregate, Active;
    HasPlan(rows[w]);
    if e.Deploy? {
      RunKeepsSettled(rows, e.attempt, w);
    } else {
      KeepsExactly(rows, w, e);
    }
  }

  lemma HasPlan(a: Allocation)
    requires Settled(a)
    ensures a.plan.Some?
  {
  }

  // ---- Convergence over every history ----

  /** The files a promoted row ends with, once the manifest has been staged. */
  function TargetFiles(a: Allocation, h: Hash, m: FileManifest): map<string, FileRow> {
    if a.plan.Some? && a.plan.value.pending == h then PromoteFiles(a.files)
    else map p | p in m :: FileRow(Some(m[p]), Some(m[p]))
  }

  /** Staging and promoting depends on nothing else. */
  lemma RowTarget(a: Allocation, h: Hash, m: FileManifest)
    ensures Promote(UpdatePlan(a, h, m)) ==
            Allocation(a.removed, a.disabled, a.version, Some(PlanRow(h, Some(h), Some(TargetVersion(a)))),
                       TargetFiles(a, h, m))
  {
    if !(a.plan.Some? && a.plan.value.pending == h) {
      assert PromoteFiles(Upsert(a.files, m)) == map p | p in m :: FileRow(Some(m[p]), Some(m[p]));
    }
  }

  /** The rows lead to the same end once the manifest is staged. */
  predicate SameTarget(a: Allocation, b: Allocation, h: Hash, m: FileManifest) {
    && a.removed == b.removed && a.disabled == b.disabled && a.version == b.version
    && TargetFiles(a, h, m) == TargetFiles(b, h, m)
  }

  lemma ClearedTarget(files: map<string, FileRow>)
    ensures PromoteFiles(ClearAppliedFiles(files)) == PromoteFiles(files)
  {
  }

  lemma PlacedTarget(a: Allocation, b: Allocation, w: string, spec: Spec, h: Hash, m: FileManifest)
    requires SameTarget(a, b, h, m)
    ensures SameTarget(Placed(a, w, spec), Placed(b, w, spec), h, m)
  {
    hide PromoteFiles, Versions.Normalize;
  }

  lemma BuildTarget(a: Allocation, b: Allocation, w: string, spec: Spec, h: Hash, m: FileManifest)
    requires SameTarget(a, b, h, m)
    ensures SameTarget(BuildRow(a, w, spec), BuildRow(b, w, spec), h, m)
  {
    hide TargetFiles, Placed, MarkStartPending;
    PlacedTarget(a, b, w, spec, h, m);
    LiveStateTarget(Placed(a, w, spec), Placed(b, w, spec), h, m);
  }

  lemma LiveStateTarget(a: Allocation, b: Allocation, h: Hash, m: FileManifest)
    requires SameTarget(a, b, h, m)
    ensures SameTarget(MarkStartPending(a), MarkStartPending(b), h, m)
    ensures SameTarget(StopRow(a), StopRow(b), h, m)
    ensures SameTarget(ReconcileRow(a), ReconcileRow(b), h, m)
  {
    hide PromoteFiles, ClearAppliedFiles;
    ClearedTarget(a.files);
    ClearedTarget(b.files);
    PromoteFilesIdempotent(a.files);
    PromoteFilesIdempotent(b.files);
  }

  lemma FateTarget(a: Allocation, w: string, log: seq<Event>, h: Hash, m: FileManifest)
    requires a.plan.Some? && a.plan.value.pending == h
    ensures SameTarget(Fate(a, w, log), a, h, m) && SameTarget(Promote(Fate(a, w, log)), a, h, m)
  {
    hide Touched, PromoteFiles;
    PromoteFilesIdempotent(a.files);
  }

  lemma StagedTarget(a: Allocation, h: Hash, m: FileManifest)
    ensures SameTarget(UpdatePlan(a, h, m), a, h, m)
    ensures UpdatePlan(a, h, m).plan.Some? && UpdatePlan(a, h, m).plan.value.pending == h
  {
    if !(a.plan.Some? && a.plan.value.pending == h) {
      assert PromoteFiles(Upsert(a.files, m)) == map p | p in m :: FileRow(Some(m[p]), Some(m[p]));
    }
  }

  /** No deploy of the content, forced or not, whatever fails, moves a row away from its target. */
  lemma DeployTarget(rows: Rows, t: Attempt, w: string)
    requires ConfOk(rows, t.conf) && w in rows && w in t.staged
    ensures w in RunOnce(rows, t).rows
    ensures SameTarget(RunOnce(rows, t).rows[w], rows[w], Aggregate(t.staged[w]), t.staged[w])
  {
    hide Lifecycle, Fate, Promote, UpdatePlan, Aggregate, TargetFiles, JobNeedsRollout, Touched;
    var h, m := Aggregate(t.staged[w]), t.staged[w];
    var staged := Refresh(rows, t.staged);
    RefreshKeepsConf(rows, t);
    LifecycleTracks(staged, t.conf, t.force, t.world);
    var r := Lifecycle(staged, t.conf, t.force, t.world);
    if rows[w].removed {
      RemovedUntouched(staged, r, w);
    } else {
      StagedTarget(rows[w], h, m);
      FateTarget(staged[w], w, r.log, h, m);
      FateKeepsFlags(staged[w], w, r.log);
    }
  }

  lemma RemovedUntouched(rows: Rows, r: Run, w: string)
    requires w in rows && rows[w].removed && TouchesActive(rows, r)
    ensures Fate(rows[w], w, r.log) == rows[w]
  {
    hide Touched;
  }

  function WithoutDeploys(es: seq<Step>): seq<Step> {
    if es == [] then []
    else if es[0].Deploy? then WithoutDeploys(es[1..])
    else [es[0]] + WithoutDeploys(es[1..])
  }

  /** Every deploy of the history stages this content, which covers the rows at every point. */
  ghost predicate Stages(rows: Rows, es: seq<Step>, staged: map<string, FileManifest>)
    decreases |es|
  {
    && rows.Keys <= staged.Keys
    && (es != [] ==>
          && (es[0].Deploy? ==> es[0].attempt.staged == staged)
          && Stages(Change(rows, es[0]), es[1..], staged))
  }

  ghost predicate SameTargets(rows: Rows, others: Rows, staged: map<string, FileManifest>) {
    && others.Keys == rows.Keys <= staged.Keys
    && forall w :: w in rows ==> SameTarget(rows[w], others[w], Aggregate(staged[w]), staged[w])
  }

  lemma ChangeTargets(rows: Rows, others: Rows, e: Step, staged: map<string, FileManifest>)
    requires SameTargets(rows, others, staged) && !e.Deploy? && Change(rows, e).Keys <= staged.Keys
    ensures SameTargets(Change(rows, e), Change(others, e), staged)
  {
    hide SameTarget, BuildRow, MarkStartPending, StopRow, ReconcileRow, Aggregate;
    if e.Build? {
      forall w | w in rows.Keys + e.spec.matched
        ensures SameTarget(BuildRows(rows, e.spec)[w], BuildRows(others, e.spec)[w], Aggregate(staged[w]), staged[w])
      {
        var a := if w in rows then rows[w] else Inserted;
        var o := if w in rows then others[w] else Inserted;
        SameAsItself(a, Aggregate(staged[w]), staged[w]);
        BuildTarget(a, o, w, e.spec, Aggregate(staged[w]), staged[w]);
      }
    } else {
      forall w | w in rows
        ensures SameTarget(MarkStartPending(rows[w]), MarkStartPending(others[w]), Aggregate(staged[w]), staged[w])
        ensures SameTarget(StopRow(rows[w]), StopRow(others[w]), Aggregate(staged[w]), staged[w])
        ensures SameTarget(ReconcileRow(rows[w]), ReconcileRow(others[w]), Aggregate(staged[w]), staged[w])
      {
        LiveStateTarget(rows[w], others[w], Aggregate(staged[w]), staged[w]);
      }
    }
  }

  lemma SameAsItself(a: Allocation, h: Hash, m: FileManifest)
    ensures SameTarget(a, a, h, m)
  {
  }

  lemma DeployTargets(rows: Rows, others: Rows, t: Attempt)
    requires SameTargets(rows, others, t.staged) && ConfOk(rows, t.conf)
    ensures SameTargets(RunOnce(rows, t).rows, others, t.staged)
  {
    hide RunOnce, ConfOk, Aggregate, TargetFiles;
    forall w | w in rows
      ensures SameTarget(RunOnce(rows, t).rows[w], others[w], Aggregate(t.staged[w]), t.staged[w])
    {
      DeployTarget(rows, t, w);
    }
  }

  /** Deploys can be struck from a history without changing what the rest leads to. */
  lemma {:induction false} DeploysVanish(rows: Rows, others: Rows, es: seq<Step>, staged: map<string, FileManifest>)
    requires Possible(rows, es) && Stages(rows, es, staged) && SameTargets(rows, others, staged)
    ensures SameTargets(History(rows, es), History(others, WithoutDeploys(es)), staged)
    decreases |es|
  {
    hide SameTargets, RunOnce, ConfOk, BuildRows, OnWorkers;
    if es != [] {
      var e, next := es[0], Change(rows, es[0]);
      StagedKeys(next, es[1..], staged);
      if e.Deploy? {
        DeployTargets(rows, others, e.attempt);
        DeploysVanish(next, others, es[1..], staged);
      } else {
        ChangeTargets(rows, others, e, staged);
        DeploysVanish(next, Change(others, e), es[1..], staged);
        assert ([e] + WithoutDeploys(es[1..]))[1..] == WithoutDeploys(es[1..]);
      }
    }
  }

  lemma StagedKeys(rows: Rows, es: seq<Step>, staged: map<string, FileManifest>)
    requires Stages(rows, es, staged)
    ensures rows.Keys <= staged.Keys
  {
  }

  /** After a success every active allocation runs the staged content at its target version. */
  lemma SuccessRuns(rows: Rows, t: Attempt, w: string)
    requires AttemptOk(rows, t) && RunOnce(rows, t).ok && w in rows && Active(rows[w])
    ensures var a := RunOnce(rows, t).rows[w];
            Running(a) == (Some(Aggregate(t.staged[w])), TargetVersion(rows[w]))
  {
    hide Lifecycle, DeployJob, Aggregate, PromoteFiles, Upsert;
    var staged := Refresh(rows, t.staged);
    RefreshReady(rows, t);
    SuccessPromotesAll(staged, t.conf, t.force, t.world);
    assert w in staged && Active(staged[w]) && TargetVersion(staged[w]) == TargetVersion(rows[w]);
    if !t.force && !JobNeedsRollout(staged) {
      assert !NeedsRollout(staged[w]);
    }
  }

  /** Convergence over any history of deploys, builds, stops and reconciliations of one content, each deploy failing
      or not, forced or not: a success then leaves every active allocation running what a single success would
      have left after the same history without its deploys; and when both roll out, all rows that are not removed
      are the same. */
  lemma ConvergenceOverHistory(rows: Rows, es: seq<Step>, last: Attempt, once: Attempt)
    requires Possible(rows, es) && Stages(rows, es, last.staged) && last.staged == once.staged
    requires AttemptOk(History(rows, es), last) && AttemptOk(History(rows, WithoutDeploys(es)), once)
    requires RunOnce(History(rows, es), last).ok && RunOnce(History(rows, WithoutDeploys(es)), once).ok
    ensures var long, short := History(rows, es), History(rows, WithoutDeploys(es));
            var l, s := RunOnce(long, last).rows, RunOnce(short, once).rows;
            && l.Keys == s.Keys == long.Keys
            && (forall w :: w in long && Active(long[w]) ==> Running(l[w]) == Running(s[w]))
            && ((last.force || JobNeedsRollout(Refresh(long, last.staged)))
                && (once.force || JobNeedsRollout(Refresh(short, once.staged))) ==>
                  forall w :: w in long && !long[w].removed ==> l[w] == s[w])
  {
    hide RunOnce, DeployJob, Refresh, JobNeedsRollout, Running, History, Stages, Possible, AttemptOk, Aggregate,
         TargetFiles, SameTarget, Ready;
    var long, short := History(rows, es), History(rows, WithoutDeploys(es));
    StagedKeys(rows, es, last.staged);
    forall w | w in rows
      ensures SameTarget(rows[w], rows[w], Aggregate(last.staged[w]), last.staged[w])
    {
      SameAsItself(rows[w], Aggregate(last.staged[w]), last.staged[w]);
    }
    DeploysVanish(rows, rows, es, last.staged);
    SameEnd(long, short, last, once);
  }

  lemma SameEnd(long: Rows, short: Rows, last: Attempt, once: Attempt)
    requires SameTargets(long, short, last.staged) && last.staged == once.staged
    requires AttemptOk(long, last) && AttemptOk(short, once) && RunOnce(long, last).ok && RunOnce(short, once).ok
    ensures forall w :: w in long && Active(long[w]) ==>
              Running(RunOnce(long, last).rows[w]) == Running(RunOnce(short, once).rows[w])
    ensures (last.force || JobNeedsRollout(Refresh(long, last.staged)))
            && (once.force || JobNeedsRollout(Refresh(short, once.staged))) ==>
              forall w :: w in long && !long[w].removed ==> RunOnce(long, last).rows[w] == RunOnce(short, once).rows[w]
  {
    hide RunOnce, Refresh, JobNeedsRollout, Running, AttemptOk, Aggregate, TargetFiles, Ready;
    forall w | w in long && Active(long[w])
      ensures Running(RunOnce(long, last).rows[w]) == Running(RunOnce(short, once).rows[w])
    {
      SuccessRuns(long, last, w);
      SuccessRuns(short, once, w);
    }
    if (last.force || JobNeedsRollout(Refresh(long, last.staged)))
       && (once.force || JobNeedsRollout(Refresh(short, once.staged))) {
      forall w | w in long && !long[w].removed
        ensures RunOnce(long, last).rows[w] == RunOnce(short, once).rows[w]
      {
        RolledOutRow(long, last, w);
        RolledOutRow(short, once, w);
      }
    }
  }

  lemma RolledOutRow(rows: Rows, t: Attempt, w: string)
    requires AttemptOk(rows, t) && RunOnce(rows, t).ok && w in rows && !rows[w].removed
    requires t.force || JobNeedsRollout(Refresh(rows, t.staged))
    ensures var h := Aggregate(t.staged[w]);
            RunOnce(rows, t).rows[w] ==
            Allocation(rows[w].removed, rows[w].disabled, rows[w].version,
                       Some(PlanRow(h, Some(h), Some(TargetVersion(rows[w])))), TargetFiles(rows[w], h, t.staged[w]))
  {
    hide DeployJob, Aggregate, TargetFiles, JobNeedsRollout, Promote, UpdatePlan, Ready;
    var staged := Refresh(rows, t.staged);
    RefreshReady(rows, t);
    SuccessPromotesAll(staged, t.conf, t.force, t.world);
    StagedFlags(rows[w], Aggregate(t.staged[w]), t.staged[w]);
    RowTarget(rows[w], Aggregate(t.staged[w]), t.staged[w]);
  }

  lemma StagedFlags(a: Allocation, h: Hash, m: FileManifest)
    ensures UpdatePlan(a, h, m).removed == a.removed
  {
  }
}
