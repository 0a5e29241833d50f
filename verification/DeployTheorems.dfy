/** What holds over every sequence of failing and succeeding deploys of a job. */
module DeployTheorems {
  import opened Prelude
  import opened Manifest
  import opened Catalog
  import opened RolloutPolicy
  import opened Rollout
  import opened RolloutFacts

  // ---- One run ----

  lemma FateKeepsFlags(a: Allocation, w: string, log: seq<Event>)
    ensures var b := Fate(a, w, log);
            && b.removed == a.removed && b.disabled == a.disabled && b.version == a.version
            && (b.plan.Some? <==> a.plan.Some?)
            && (a.plan.Some? ==> b.plan.value.pending == a.plan.value.pending)
            && (Active(b) <==> Active(a))
  {
  }

  lemma UpdatePhaseFacts(rows: Rows, c: JobConf, force: bool, world: World, t: nat)
    requires ConfOk(rows, c)
    ensures var r := UpdatePhase(rows, c, force, world, t);
            var updated := NeedingRestart(rows, c, force);
            && Tracks(rows, r)
            && Acts(Elements(WorkersFor(Reload, rows, c, updated)) + Elements(WorkersFor(Restart, rows, c, updated)), r)
  {
    hide Phase, Acts, NeedingRestart, WorkersFor, Fate, Touched, UpdateAction, Active;
    var updated := NeedingRestart(rows, c, force);
    NeedingRestartFacts(rows, c, force);
    var reloads, restarts := WorkersFor(Reload, rows, c, updated), WorkersFor(Restart, rows, c, updated);
    WorkersForFacts(Reload, rows, c, updated);
    WorkersForFacts(Restart, rows, c, updated);
    PhaseFacts(rows, c, Reload, reloads, RestartLimit(c), force, world, t);
    var r := Phase(rows, c, Reload, reloads, RestartLimit(c), force, world, t);
    if !r.ok {
      FailedActsWiden(Elements(reloads), Elements(restarts), r);
    } else {
      forall w | w in restarts
        ensures w in r.rows && Active(r.rows[w])
      {
        FateKeepsFlags(rows[w], w, r.log);
      }
      PhaseFacts(r.rows, c, Restart, restarts, RestartLimit(c), force, world, r.t);
      var r2 := Phase(r.rows, c, Restart, restarts, RestartLimit(c), force, world, r.t);
      ChainTracks(rows, r, r2);
      ChainActs(Elements(reloads), Elements(restarts), r, r2);
    }
  }

  /** Allocations a non-force run starts, reloads or restarts if nothing fails. */
  ghost function LifecycleSet(rows: Rows, c: JobConf): set<string> {
    set w | w in rows && NeedsWork(rows[w]) &&
            (IsNew(rows[w]) || UpdateAction(rows[w], c) == Reload || UpdateAction(rows[w], c) == Restart)
  }

  /** After its start phase a non-force run sees new allocations as settled and the others as before. */
  lemma AfterStarts(rows: Rows, c: JobConf, r: Run)
    requires ConfOk(rows, c) && Tracks(rows, r) && r.ok && Acts(Elements(NewWorkers(rows, c)), r)
    ensures forall w :: w in rows ==>
              r.rows[w] == if IsNew(rows[w]) then Promote(rows[w]) else rows[w]
    ensures forall w :: w in rows && IsNew(rows[w]) ==> !NeedsWork(r.rows[w])
  {
    hide Touched, Promote, IsNew, NeedsWork;
    NewWorkersFacts(rows, c);
    forall w | w in rows && IsNew(rows[w])
      ensures !NeedsWork(Promote(rows[w]))
    {
      NewHasPlan(rows[w]);
      PromotedNeedsNothing(rows[w]);
    }
  }

  lemma NewHasPlan(a: Allocation)
    requires IsNew(a)
    ensures a.plan.Some? && Active(a) && NeedsWork(a)
  {
  }

  lemma LifecycleFacts(rows: Rows, c: JobConf, world: World)
    requires ConfOk(rows, c)
    ensures var r := Lifecycle(rows, c, false, world);
            Tracks(rows, r) && Acts(LifecycleSet(rows, c), r)
  {
    hide Phase, UpdatePhase, Acts, Tracks, NeedingRestart, WorkersFor, NewWorkers, UpdateAction, NeedsWork, IsNew,
         Active;
    NewWorkersFacts(rows, c);
    var started := NewWorkers(rows, c);
    forall w | w in started
      ensures w in rows && Active(rows[w])
    {
      NewHasPlan(rows[w]);
    }
    PhaseFacts(rows, c, Start, started, c.maxStarts, false, world, 0);
    var r := StartPhase(rows, c, false, world);
    var all := LifecycleSet(rows, c);
    assert Elements(started) <= all by {
      forall w | w in started
        ensures w in all
      {
        NewHasPlan(rows[w]);
      }
    }
    if !r.ok {
      FailedActsWiden(Elements(started), all, r);
      assert Elements(started) + all == all;
    } else {
      AfterStarts(rows, c, r);
      TracksKeys(rows, r);
      UpdatePhaseFacts(r.rows, c, false, world, r.t);
      var r2 := UpdatePhase(r.rows, c, false, world, r.t);
      ChainTracks(rows, r, r2);
      UpdateSet(rows, c, r);
      var updated := NeedingRestart(r.rows, c, false);
      var ws2 := Elements(WorkersFor(Reload, r.rows, c, updated)) + Elements(WorkersFor(Restart, r.rows, c, updated));
      ChainActs(Elements(started), ws2, r, r2);
      assert Elements(started) + ws2 == all;
    }
  }

  lemma TracksKeys(rows: Rows, r: Run)
    requires Tracks(rows, r)
    ensures r.rows.Keys == rows.Keys && (r.ok ==> Touched(Failing, r.log) == {})
  {
  }

  lemma UpdateSet(rows: Rows, c: JobConf, r: Run)
    requires ConfOk(rows, c) && r.rows.Keys == rows.Keys
    requires forall w :: w in rows ==>
               r.rows[w] == if IsNew(rows[w]) then Promote(rows[w]) else rows[w]
    requires forall w :: w in rows && IsNew(rows[w]) ==> !NeedsWork(r.rows[w])
    ensures var updated := NeedingRestart(r.rows, c, false);
            Elements(WorkersFor(Reload, r.rows, c, updated)) + Elements(WorkersFor(Restart, r.rows, c, updated))
            == set w | w in LifecycleSet(rows, c) && !IsNew(rows[w])
  {
    hide NeedingRestart, WorkersFor, UpdateAction, IsNew, Promote, NeedsWork;
    var updated := NeedingRestart(r.rows, c, false);
    NeedingRestartFacts(r.rows, c, false);
    WorkersForFacts(Reload, r.rows, c, updated);
    WorkersForFacts(Restart, r.rows, c, updated);
    forall w | w in rows
      ensures w in updated <==> NeedsWork(rows[w]) && !IsNew(rows[w])
    {
      WorkIsActive(r.rows[w]);
    }
  }

  lemma WorkIsActive(a: Allocation)
    ensures NeedsWork(a) ==> Active(a)
  {
  }

  // ---- Success and failure ----

  /** Every allocation that is not removed has been staged. */
  ghost predicate Ready(rows: Rows) {
    forall w :: w in rows && !rows[w].removed ==> rows[w].plan.Some? && rows[w].plan.value.pending.Tree?
  }

  /** Gates only ever concern active allocations. */
  ghost predicate TouchesActive(rows: Rows, r: Run) {
    forall w :: w in Touched(Passing, r.log) + Touched(Failing, r.log) ==> w in rows && Active(rows[w])
  }

  lemma ActsTouchesActive(rows: Rows, ws: set<string>, r: Run)
    requires Acts(ws, r) && forall w :: w in ws ==> w in rows && Active(rows[w])
    ensures TouchesActive(rows, r)
  {
    hide Touched, Active;
  }

  /** With or without force, a run's rows are the fates in its log. */
  lemma LifecycleTracks(rows: Rows, c: JobConf, force: bool, world: World)
    requires ConfOk(rows, c)
    ensures var r := Lifecycle(rows, c, force, world); Tracks(rows, r) && TouchesActive(rows, r)
  {
    hide Phase, UpdatePhase, Acts, NeedingRestart, WorkersFor, NewWorkers, UpdateAction, IsNew, Active, Touched, Fate;
    NewWorkersFacts(rows, c);
    var started := NewWorkers(rows, c);
    forall w | w in started
      ensures w in rows && Active(rows[w])
    {
      NewHasPlan(rows[w]);
    }
    PhaseFacts(rows, c, Start, started, c.maxStarts, force, world, 0);
    var r := StartPhase(rows, c, force, world);
    ActsTouchesActive(rows, Elements(started), r);
    if r.ok {
      var updated := NeedingRestart(r.rows, c, force);
      UpdatePhaseFacts(r.rows, c, force, world, r.t);
      var r2 := UpdatePhase(r.rows, c, force, world, r.t);
      ChainTracks(rows, r, r2);
      NeedingRestartFacts(r.rows, c, force);
      WorkersForFacts(Reload, r.rows, c, updated);
      WorkersForFacts(Restart, r.rows, c, updated);
      ActsTouchesActive(r.rows,
        Elements(WorkersFor(Reload, r.rows, c, updated)) + Elements(WorkersFor(Restart, r.rows, c, updated)), r2);
      forall w | w in rows
        ensures Active(r.rows[w]) <==> Active(rows[w])
      {
        FateKeepsFlags(rows[w], w, r.log);
      }
      TouchedConcat(Passing, r.log, r2.log);
      TouchedConcat(Failing, r.log, r2.log);
    }
  }

  lemma PromoteAllAfter(rows: Rows, r: Run)
    requires Tracks(rows, r) && TouchesActive(rows, r)
    ensures PromoteAll(r.rows) == PromoteAll(rows)
  {
    hide Promote, MarkHealthFailed, Touched;
    forall w | w in rows
      ensures PromoteAll(r.rows)[w] == PromoteAll(rows)[w]
    {
      FateKeepsFlags(rows[w], w, r.log);
      PromoteIdempotent(rows[w]);
      PromoteAfterFailure(rows[w]);
    }
  }

  /** A successful deploy leaves every allocation promoted, whatever happened on the way. */
  lemma SuccessPromotesAll(rows: Rows, c: JobConf, force: bool, world: World)
    requires ConfOk(rows, c) && DeployJob(rows, c, force, world).ok
    ensures DeployJob(rows, c, force, world).rows ==
            if force || JobNeedsRollout(rows) then PromoteAll(rows) else rows
    ensures Ready(rows) ==> !JobNeedsRollout(DeployJob(rows, c, force, world).rows)
  {
    hide Lifecycle, Tracks, Promote, NeedsRollout, TouchesActive;
    LifecycleTracks(rows, c, force, world);
    if force || JobNeedsRollout(rows) {
      PromoteAllAfter(rows, Lifecycle(rows, c, force, world));
    }
    if Ready(rows) {
      PromotedRowsNeedNothing(rows);
    }
  }

  lemma PromotedRowsNeedNothing(rows: Rows)
    requires Ready(rows)
    ensures !JobNeedsRollout(PromoteAll(rows))
  {
    hide Promote, NeedsRollout;
    forall w | w in rows
      ensures !NeedsRollout(PromoteAll(rows)[w])
    {
      if rows[w].removed {
        RemovedNeedsNothing(rows[w]);
      } else {
        PromotedNeedsNothing(rows[w]);
      }
    }
  }

  lemma RemovedNeedsNothing(a: Allocation)
    requires a.removed
    ensures !NeedsRollout(a)
  {
  }

  /** A row whose gate failed, or that was never reached, still needs work. */
  lemma FateNeedsWork(a: Allocation, w: string, log: seq<Event>)
    requires a.plan.Some? && a.plan.value.pending.Tree?
    requires NeedsWork(a) && w !in Touched(Passing, log)
    ensures NeedsWork(Fate(a, w, log)) && NeedsRollout(Fate(a, w, log))
  {
    hide Touched;
  }

  /** A failed non-force deploy changes no final state and leaves the job in need of rollout. */
  lemma FailureKeepsTarget(rows: Rows, c: JobConf, world: World)
    requires ConfOk(rows, c) && Ready(rows) && !DeployJob(rows, c, false, world).ok
    ensures var r := DeployJob(rows, c, false, world);
            && PromoteAll(r.rows) == PromoteAll(rows)
            && JobNeedsRollout(rows)
            && JobNeedsRollout(r.rows)
  {
    hide Lifecycle, Fate, Promote, NeedsRollout, NeedsWork, IsNew, UpdateAction, TouchesActive;
    LifecycleTracks(rows, c, false, world);
    LifecycleFacts(rows, c, world);
    var r := Lifecycle(rows, c, false, world);
    PromoteAllAfter(rows, r);
    var w :| w in LifecycleSet(rows, c) && w !in Touched(Passing, r.log);
    WorkIsActive(rows[w]);
    FateNeedsWork(rows[w], w, r.log);
  }

  /** Safe resume: after a failed non-force deploy, the allocations that need work are exactly those that
      needed it and whose batch did not pass its gate. */
  lemma SafeResume(rows: Rows, c: JobConf, world: World, w: string)
    requires ConfOk(rows, c) && Ready(rows) && w in rows
    requires !DeployJob(rows, c, false, world).ok
    ensures var r := DeployJob(rows, c, false, world);
            NeedsWork(r.rows[w]) <==> NeedsWork(rows[w]) && w !in Touched(Passing, r.log)
  {
    hide Lifecycle, Touched, Promote, NeedsWork, IsNew, UpdateAction;
    LifecycleFacts(rows, c, world);
    var r := Lifecycle(rows, c, false, world);
    WorkIsActive(rows[w]);
    if w in Touched(Passing, r.log) {
      assert w in LifecycleSet(rows, c);
      PromotedNeedsNothing(rows[w]);
    } else if NeedsWork(rows[w]) {
      FateNeedsWork(rows[w], w, r.log);
    } else {
      assert w !in LifecycleSet(rows, c);
    }
  }

  /** A non-force deploy acts only on allocations that need work. */
  lemma ActsOnNeedy(rows: Rows, c: JobConf, world: World)
    requires ConfOk(rows, c)
    ensures forall w :: w in Touched(Acting, DeployJob(rows, c, false, world).log) ==> w in rows && NeedsWork(rows[w])
  {
    hide Lifecycle, NeedsWork, IsNew, UpdateAction;
    LifecycleFacts(rows, c, world);
  }

  // ---- Sequences of runs ----

  /** One deploy attempt: what is staged, the job settings, whether it is forced, and its batches' outcomes. */
  datatype Attempt = Attempt(staged: map<string, FileManifest>, conf: JobConf, force: bool, world: World)

  /** A deploy: refresh the pending hashes, then roll out. */
  ghost function RunOnce(rows: Rows, a: Attempt): (r: Run)
    ensures r.rows.Keys == rows.Keys
  {
    DeployJob(Refresh(rows, a.staged), a.conf, a.force, a.world)
  }

  ghost function RunAll(rows: Rows, attempts: seq<Attempt>): (r: Rows)
    ensures r.Keys == rows.Keys
    decreases |attempts|
  {
    if attempts == [] then rows else RunAll(RunOnce(rows, attempts[0]).rows, attempts[1..])
  }

  ghost predicate AttemptOk(rows: Rows, a: Attempt) {
    && ConfOk(rows, a.conf)
    && forall w :: w in rows && !rows[w].removed ==> w in a.staged
  }

  /** The flags and the set of rows never change in a run. */
  ghost predicate SameFlags(rows: Rows, after: Rows) {
    && after.Keys == rows.Keys
    && forall w :: w in rows ==>
         && after[w].removed == rows[w].removed && after[w].disabled == rows[w].disabled
         && after[w].version == rows[w].version
  }

  /** A deploy keeps flags, versions and pending hashes. */
  ghost predicate SamePlans(rows: Rows, after: Rows) {
    && SameFlags(rows, after)
    && forall w :: w in rows ==>
         && (after[w].plan.Some? <==> rows[w].plan.Some?)
         && (rows[w].plan.Some? ==> after[w].plan.value.pending == rows[w].plan.value.pending)
  }

  lemma PromoteAllKeepsPlans(rows: Rows, after: Rows)
    requires SamePlans(rows, after)
    ensures SamePlans(rows, PromoteAll(after))
  {
    hide PromoteFiles;
  }

  lemma JobKeepsPlans(rows: Rows, c: JobConf, force: bool, world: World)
    requires ConfOk(rows, c)
    ensures SamePlans(rows, DeployJob(rows, c, force, world).rows)
  {
    hide Lifecycle, Fate, JobNeedsRollout, PromoteAll, Active;
    LifecycleTracks(rows, c, force, world);
    var r := Lifecycle(rows, c, force, world);
    forall w | w in rows
      ensures && r.rows[w].removed == rows[w].removed && r.rows[w].disabled == rows[w].disabled
              && r.rows[w].version == rows[w].version
              && (r.rows[w].plan.Some? <==> rows[w].plan.Some?)
              && (rows[w].plan.Some? ==> r.rows[w].plan.value.pending == rows[w].plan.value.pending)
    {
      FateKeepsFlags(rows[w], w, r.log);
    }
    PromoteAllKeepsPlans(rows, r.rows);
  }

  lemma RefreshKeepsFlags(rows: Rows, staged: map<string, FileManifest>)
    ensures SameFlags(rows, Refresh(rows, staged))
  {
    hide Upsert, Aggregate;
  }

  lemma StagedRow(a: Allocation, h: Hash, m: FileManifest)
    ensures UpdatePlan(a, h, m).plan.Some? && UpdatePlan(a, h, m).plan.value.pending == h
    ensures UpdatePlan(a, h, m).removed == a.removed
  {
    hide Upsert;
  }

  lemma AggregateIsTree(m: FileManifest)
    ensures Aggregate(m).Tree?
  {
  }

  lemma RefreshReady(rows: Rows, a: Attempt)
    requires AttemptOk(rows, a)
    ensures Ready(Refresh(rows, a.staged))
    ensures ConfOk(Refresh(rows, a.staged), a.conf)
    ensures forall w :: w in rows && !rows[w].removed ==>
              Refresh(rows, a.staged)[w].plan.value.pending == Aggregate(a.staged[w])
  {
    hide UpdatePlan, Aggregate, Distinct;
    var after := Refresh(rows, a.staged);
    forall w | w in rows && !rows[w].removed
      ensures after[w].plan.Some? && after[w].plan.value.pending == Aggregate(a.staged[w])
      ensures Aggregate(a.staged[w]).Tree?
    {
      StagedRow(rows[w], Aggregate(a.staged[w]), a.staged[w]);
      AggregateIsTree(a.staged[w]);
    }
    forall w | w in rows && !after[w].removed
      ensures !rows[w].removed
    {
      if w in a.staged {
        StagedRow(rows[w], Aggregate(a.staged[w]), a.staged[w]);
      }
    }
  }

  /** Staging the same content again, after any run, changes nothing. */
  lemma RefreshAgain(rows: Rows, a: Attempt, b: Attempt)
    requires AttemptOk(rows, a) && AttemptOk(rows, b) && a.staged == b.staged
    ensures Refresh(RunOnce(rows, a).rows, b.staged) == RunOnce(rows, a).rows
    ensures AttemptOk(RunOnce(rows, a).rows, b)
  {
    hide DeployJob, Aggregate, Upsert, Ready;
    RefreshReady(rows, a);
    RefreshKeepsFlags(rows, a.staged);
    JobKeepsPlans(Refresh(rows, a.staged), a.conf, a.force, a.world);
    ReadyPlans(Refresh(rows, a.staged));
    var staged, after := Refresh(rows, a.staged), RunOnce(rows, a).rows;
    hide Refresh;
    forall w | w in rows
      ensures Refresh(after, b.staged)[w] == after[w]
    {
      RefreshRow(after, b.staged, w);
    }
  }

  lemma RefreshRow(rows: Rows, staged: map<string, FileManifest>, w: string)
    requires w in rows
    requires !rows[w].removed ==>
               w in staged && rows[w].plan.Some? && rows[w].plan.value.pending == Aggregate(staged[w])
    ensures Refresh(rows, staged)[w] == rows[w]
  {
    hide Aggregate, Upsert;
  }

  lemma ReadyPlans(rows: Rows)
    requires Ready(rows)
    ensures forall w :: w in rows && !rows[w].removed ==> rows[w].plan.Some?
  {
  }

  /** Every attempt is without force, stages the same content, and fails. */
  ghost predicate AllFail(rows: Rows, staged: map<string, FileManifest>, attempts: seq<Attempt>)
    decreases |attempts|
  {
    attempts != [] ==>
      && !attempts[0].force && attempts[0].staged == staged
      && AttemptOk(rows, attempts[0])
      && !RunOnce(rows, attempts[0]).ok
      && AllFail(RunOnce(rows, attempts[0]).rows, staged, attempts[1..])
  }

  /** What failed attempts leave is still on the way to the same end. */
  lemma {:induction false} FailuresKeepTarget(rows: Rows, last: Attempt, attempts: seq<Attempt>)
    requires AttemptOk(rows, last) && AllFail(rows, last.staged, attempts)
    ensures var after := RunAll(rows, attempts);
            && AttemptOk(after, last)
            && PromoteAll(Refresh(after, last.staged)) == PromoteAll(Refresh(rows, last.staged))
            && (attempts != [] ==>
                  && JobNeedsRollout(Refresh(after, last.staged))
                  && JobNeedsRollout(Refresh(rows, last.staged)))
    decreases |attempts|
  {
    hide DeployJob, PromoteAll, Refresh, JobNeedsRollout, AttemptOk;
    if attempts != [] {
      var a := attempts[0];
      var next := RunOnce(rows, a).rows;
      RefreshReady(rows, a);
      FailureKeepsTarget(Refresh(rows, a.staged), a.conf, a.world);
      RefreshAgain(rows, a, last);
      FailuresKeepTarget(next, last, attempts[1..]);
    }
  }

  /** Convergence: after any finite sequence of failed non-force deploys, one success, forced or not, ends in
      exactly the rows that a single success from the start would have left: same applied hashes, versions and
      manifests. */
  lemma Convergence(rows: Rows, attempts: seq<Attempt>, last: Attempt, once: Attempt)
    requires AttemptOk(rows, last) && AttemptOk(rows, once) && last.staged == once.staged
    requires attempts == [] ==> last.force == once.force
    requires AllFail(rows, last.staged, attempts)
    requires RunOnce(RunAll(rows, attempts), last).ok && RunOnce(rows, once).ok
    ensures RunOnce(RunAll(rows, attempts), last).rows == RunOnce(rows, once).rows
    ensures !JobNeedsRollout(RunOnce(rows, once).rows)
  {
    hide DeployJob, PromoteAll, Refresh, JobNeedsRollout, AttemptOk;
    var after := RunAll(rows, attempts);
    FailuresKeepTarget(rows, last, attempts);
    RefreshReady(after, last);
    RefreshReady(rows, once);
    SuccessPromotesAll(Refresh(after, last.staged), last.conf, last.force, last.world);
    SuccessPromotesAll(Refresh(rows, once.staged), once.conf, once.force, once.world);
  }

  /** After a success, forced or not, deploying the same content again without force does nothing at all. */
  lemma RepeatIsIdle(rows: Rows, first: Attempt, again: Attempt)
    requires AttemptOk(rows, first) && AttemptOk(rows, again) && first.staged == again.staged
    requires RunOnce(rows, first).ok && !again.force
    ensures RunOnce(RunOnce(rows, first).rows, again) == Run(RunOnce(rows, first).rows, true, [], 0)
  {
    hide Lifecycle, Refresh, JobNeedsRollout, AttemptOk, PromoteAll;
    RefreshReady(rows, first);
    SuccessPromotesAll(Refresh(rows, first.staged), first.conf, first.force, first.world);
    RefreshAgain(rows, first, again);
  }

  // ---- Settled allocations ----

  /** Promoted, with nothing pending. */
  ghost predicate Settled(a: Allocation) {
    a.plan.Some? && a.plan.value.pending.Tree? && Promote(a) == a
  }

  lemma SettledNeedsNothing(a: Allocation)
    requires Settled(a)
    ensures !NeedsWork(a)
  {
    PromotedNeedsNothing(a);
  }

  /** A gate that passed settles its allocations. */
  lemma PassedIsSettled(rows: Rows, c: JobConf, world: World, w: string)
    requires ConfOk(rows, c) && Ready(rows) && w in rows
    requires w in Touched(Passing, DeployJob(rows, c, false, world).log)
    ensures Settled(DeployJob(rows, c, false, world).rows[w])
  {
    hide Lifecycle, Touched, PromoteFiles, NeedsWork, IsNew, UpdateAction;
    LifecycleFacts(rows, c, world);
    LogTouches(Passing, Start, []);
    var r := Lifecycle(rows, c, false, world);
    assert w in LifecycleSet(rows, c);
    WorkIsActive(rows[w]);
    PromoteIdempotent(rows[w]);
    assert r.rows[w] == Promote(rows[w]);
  }

  lemma RunKeepsSettled(rows: Rows, a: Attempt, w: string)
    requires ConfOk(rows, a.conf) && !a.force && w in rows && Settled(rows[w])
    requires rows[w].removed || (w in a.staged && Aggregate(a.staged[w]) == rows[w].plan.value.pending)
    ensures w !in Touched(Acting, RunOnce(rows, a).log)
    ensures RunOnce(rows, a).rows[w] == rows[w]
  {
    hide Lifecycle, Aggregate, Upsert, Promote, NeedsWork, IsNew, UpdateAction, JobNeedsRollout;
    var staged := Refresh(rows, a.staged);
    assert staged[w] == rows[w];
    SettledNeedsNothing(rows[w]);
    ActsOnNeedy(staged, a.conf, a.world);
    LifecycleFacts(staged, a.conf, a.world);
  }

  /** Without force, and what is staged for the worker is what its row already records. */
  ghost predicate StagesSame(rows: Rows, w: string, a: Attempt)
    requires w in rows && rows[w].plan.Some?
  {
    !a.force && ConfOk(rows, a.conf) && w in a.staged && Aggregate(a.staged[w]) == rows[w].plan.value.pending
  }

  /** Safe resume over any later non-force runs: an allocation whose gate passed is never started, reloaded or
      restarted again, nor its row changed, while what is staged for it and its version stay the same. */
  lemma {:induction false} SettledStays(rows: Rows, attempts: seq<Attempt>, w: string)
    requires w in rows && Settled(rows[w])
    requires forall k :: 0 <= k < |attempts| ==> StagesSame(rows, w, attempts[k])
    ensures RunAll(rows, attempts)[w] == rows[w]
    ensures forall k :: 0 <= k < |attempts| ==>
              w !in Touched(Acting, RunOnce(RunAll(rows, attempts[..k]), attempts[k]).log)
    decreases |attempts|
  {
    hide RunOnce, Aggregate, Promote, Touched, Distinct;
    if attempts != [] {
      var next, rest := RunOnce(rows, attempts[0]).rows, attempts[1..];
      RunKeepsSettled(rows, attempts[0], w);
      forall k | 0 <= k < |rest|
        ensures StagesSame(next, w, rest[k])
      {
        assert rest[k] == attempts[k + 1];
      }
      SettledStays(next, rest, w);
      forall k | 0 <= k < |attempts|
        ensures w !in Touched(Acting, RunOnce(RunAll(rows, attempts[..k]), attempts[k]).log)
      {
        RunPrefix(rows, attempts, k);
        if k > 0 {
          assert rest[k - 1] == attempts[k];
        }
      }
    }
  }

  lemma RunPrefix(rows: Rows, attempts: seq<Attempt>, k: nat)
    requires k < |attempts|
    ensures k == 0 ==> RunAll(rows, attempts[..k]) == rows
    ensures k > 0 ==> RunAll(rows, attempts[..k]) == RunAll(RunOnce(rows, attempts[0]).rows, attempts[1..][..k - 1])
  {
    hide RunOnce;
    if k > 0 {
      assert attempts[..k][1..] == attempts[1..][..k - 1];
    }
  }

  // ---- Hashes match manifests over every run ----

  ghost predicate AllConsistent(rows: Rows) {
    forall w :: w in rows ==> Consistent(rows[w])
  }

  lemma FateConsistent(a: Allocation, w: string, log: seq<Event>)
    requires Consistent(a)
    ensures Consistent(Fate(a, w, log))
  {
    hide Consistent, Promote, MarkHealthFailed, Touched;
    PromoteConsistent(a);
    OtherOperationsConsistent(Promote(a));
  }

  lemma JobConsistent(rows: Rows, c: JobConf, force: bool, world: World)
    requires ConfOk(rows, c) && AllConsistent(rows)
    ensures AllConsistent(DeployJob(rows, c, force, world).rows)
  {
    hide Consistent, Fate, Lifecycle, Promote, JobNeedsRollout;
    LifecycleTracks(rows, c, force, world);
    var r := Lifecycle(rows, c, force, world);
    forall w | w in rows
      ensures Consistent(r.rows[w]) && Consistent(Promote(r.rows[w]))
    {
      FateConsistent(rows[w], w, r.log);
      PromoteConsistent(r.rows[w]);
    }
  }

  lemma RefreshConsistent(rows: Rows, staged: map<string, FileManifest>)
    requires AllConsistent(rows)
    ensures AllConsistent(Refresh(rows, staged))
  {
    hide Consistent, UpdatePlan, Aggregate;
    forall w | w in rows
      ensures Consistent(Refresh(rows, staged)[w])
    {
      if w in staged {
        UpdatePlanConsistent(rows[w], staged[w]);
      }
    }
  }

  /** Over any sequence of deploys, forced or not, failing or succeeding, of any contents, stored hashes stay the
      aggregates of the stored manifests. */
  lemma {:induction false} RunsConsistent(rows: Rows, attempts: seq<Attempt>)
    requires AllConsistent(rows) && forall k :: 0 <= k < |attempts| ==> ConfOk(rows, attempts[k].conf)
    ensures AllConsistent(RunAll(rows, attempts))
    decreases |attempts|
  {
    hide AllConsistent, DeployJob, Refresh;
    if attempts != [] {
      var a := attempts[0];
      RefreshConsistent(rows, a.staged);
      JobConsistent(Refresh(rows, a.staged), a.conf, a.force, a.world);
      RunsConsistent(RunOnce(rows, a).rows, attempts[1..]);
    }
  }

  // ---- Versions stay in normal form over every run ----

  ghost predicate AllNormal(rows: Rows) {
    forall w :: w in rows ==> NormalVersions(rows[w])
  }

  lemma JobKeepsNormal(rows: Rows, c: JobConf, force: bool, world: World)
    requires ConfOk(rows, c) && AllNormal(rows)
    ensures AllNormal(DeployJob(rows, c, force, world).rows)
  {
    hide NormalVersions, Lifecycle, Promote, MarkHealthFailed, JobNeedsRollout, Touched;
    LifecycleTracks(rows, c, force, world);
    var r := Lifecycle(rows, c, force, world);
    forall w | w in rows
      ensures NormalVersions(r.rows[w]) && NormalVersions(Promote(r.rows[w]))
    {
      VersionsStayNormal(rows[w], "", HealthFailed, map[]);
      VersionsStayNormal(Promote(rows[w]), "", HealthFailed, map[]);
      VersionsStayNormal(r.rows[w], "", HealthFailed, map[]);
    }
  }

  lemma RefreshKeepsNormal(rows: Rows, staged: map<string, FileManifest>)
    requires AllNormal(rows)
    ensures AllNormal(Refresh(rows, staged))
  {
    hide NormalVersions, UpdatePlan, Aggregate;
    forall w | w in rows
      ensures NormalVersions(Refresh(rows, staged)[w])
    {
      if w in staged {
        VersionsStayNormal(rows[w], "", Aggregate(staged[w]), staged[w]);
      }
    }
  }

  /** Over any sequence of deploys, stored versions stay in normal form. */
  lemma {:induction false} RunsKeepNormal(rows: Rows, attempts: seq<Attempt>)
    requires AllNormal(rows) && forall k :: 0 <= k < |attempts| ==> ConfOk(rows, attempts[k].conf)
    ensures AllNormal(RunAll(rows, attempts))
    decreases |attempts|
  {
    hide AllNormal, DeployJob, Refresh;
    if attempts != [] {
      var a := attempts[0];
      RefreshKeepsNormal(rows, a.staged);
      JobKeepsNormal(Refresh(rows, a.staged), a.conf, a.force, a.world);
      RunsKeepNormal(RunOnce(rows, a).rows, attempts[1..]);
    }
  }

  // ---- Runs in which nothing outside fails ----

  ghost predicate AllGood(world: World) {
    forall t: nat :: world(t) == Outcome(true, true, true, true)
  }

  lemma {:induction false} GoodBatches(rows: Rows, action: Action, batches: seq<seq<string>>, force: bool,
                                       world: World, t: nat)
    requires AllGood(world)
    ensures RunBatches(rows, action, batches, force, world, t).ok
    decreases |batches|
  {
    hide PromoteRows, MarkRows;
    if batches != [] {
      GoodBatches(PromoteRows(rows, batches[0]), action, batches[1..], force, world, t + 1);
    }
  }

  /** A deploy succeeds when every outside step does. */
  lemma GoodWorldSucceeds(rows: Rows, c: JobConf, force: bool, world: World)
    requires AllGood(world)
    ensures DeployJob(rows, c, force, world).ok
  {
    hide OrderedBatches, RunBatches, NewWorkers, NeedingRestart, WorkersFor, JobNeedsRollout;
    GoodBatches(rows, Start, OrderedBatches(rows, c, NewWorkers(rows, c), c.maxStarts), force, world, 0);
    var r := StartPhase(rows, c, force, world);
    var updated := NeedingRestart(r.rows, c, force);
    var reloads := OrderedBatches(r.rows, c, WorkersFor(Reload, r.rows, c, updated), RestartLimit(c));
    GoodBatches(r.rows, Reload, reloads, force, world, r.t);
    var r2 := RunBatches(r.rows, Reload, reloads, force, world, r.t);
    var restarts := OrderedBatches(r2.rows, c, WorkersFor(Restart, r.rows, c, updated), RestartLimit(c));
    GoodBatches(r2.rows, Restart, restarts, force, world, r2.t);
  }
}
