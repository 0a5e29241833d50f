/** A job's deploy as the program runs it: loops that advance over batches and update rows in place
    (deploy/rollout.go, deploy/hashes.go, deploy/allocations.go, deploy/job_deploy.go). */
module RolloutImpl {
  import opened Prelude
  import opened Manifest
  import opened Catalog
  import opened Batches
  import opened RolloutOrder
  import opened RolloutPolicy
  import opened Rollout

  /** Every batch consists of candidates that have a row. */
  lemma OrderWithin(candidates: seq<string>, catalog: seq<string>, stored: Option<seq<string>>)
    ensures forall w :: w in ResolveOrder(candidates, catalog, stored) ==> w in candidates
  {
    if candidates != [] {
      if stored.Some? && ValidOrder(stored.value, candidates) {
        FilterMember(stored.value, w => w in candidates);
      } else {
        var listed := Filter(catalog, w => w in candidates);
        FilterMember(catalog, w => w in candidates);
        FilterMember(candidates, w => w !in listed);
      }
    }
  }

  lemma {:induction false} FilterSnoc<T>(xs: seq<T>, x: T, keep: T -> bool)
    ensures Filter(xs + [x], keep) == Filter(xs, keep) + (if keep(x) then [x] else [])
  {
    if xs == [] {
      assert xs + [x] == [x];
      assert Filter([x][1..], keep) == [];
    } else {
      assert (xs + [x])[1..] == xs[1..] + [x];
      FilterSnoc(xs[1..], x, keep);
    }
  }

  lemma SplitStep(ordered: seq<string>, i: nat, end: nat, size: nat)
    requires size >= 1 && i < |ordered| && end == (if i + size > |ordered| then |ordered| else i + size)
    ensures Split(ordered[i..], size) == [ordered[i..end]] + Split(ordered[end..], size)
  {
    var rest := ordered[i..];
    if |rest| > size {
      assert rest[..size] == ordered[i..end];
      assert rest[size..] == ordered[end..];
    } else {
      assert rest == ordered[i..end];
      assert ordered[end..] == [];
    }
  }

  /** The rest of a run, after what is already in the log. */
  ghost predicate Resumes(log: seq<Event>, rest: Run, before: seq<Event>, whole: Run) {
    && rest.rows == whole.rows && rest.ok == whole.ok && rest.t == whole.t
    && log + rest.log == before + whole.log
  }

  /** One more batch of a run, in each of its outcomes. */
  lemma ResumeStep(log: seq<Event>, rows: Rows, action: Action, b: seq<string>, rest: seq<seq<string>>,
                   force: bool, world: World, t: nat, before: seq<Event>, whole: Run)
    requires Resumes(log, RunBatches(rows, action, [b] + rest, force, world, t), before, whole)
    ensures var o := world(t);
            var acted, hooked := log + [Event(Acting, action, b)], log + HookedLog(action, b);
            var promoted := PromoteRows(rows, b);
            if !force && !o.preHealth then
              !whole.ok && whole.rows == rows && whole.t == t + 1 && before + whole.log == log
            else if !o.lifecycle then
              !whole.ok && whole.rows == rows && whole.t == t + 1 && before + whole.log == acted
            else if !o.hooks then
              !whole.ok && whole.rows == rows && whole.t == t + 1 && before + whole.log == hooked
            else if !o.postHealth then
              && !whole.ok && whole.rows == MarkRows(promoted, b) && whole.t == t + 1
              && before + whole.log == hooked + [Event(Promoting, action, b), Event(Failing, action, b)]
            else
              Resumes(hooked + [Event(Promoting, action, b), Event(Passing, action, b)],
                      RunBatches(promoted, action, rest, force, world, t + 1), before, whole)
  {
    hide PromoteRows, MarkRows;
    assert ([b] + rest)[1..] == rest;
    var hooked, o := log + HookedLog(action, b), world(t);
    if !force && !o.preHealth {
      assert log + [] == log;
    } else if !o.lifecycle || !o.hooks {
    } else if !o.postHealth {
      assert log + FailedLog(action, b) == hooked + [Event(Promoting, action, b), Event(Failing, action, b)];
    } else {
      var more := RunBatches(PromoteRows(rows, b), action, rest, force, world, t + 1).log;
      assert log + (PassedLog(action, b) + more)
          == hooked + [Event(Promoting, action, b), Event(Passing, action, b)] + more;
    }
  }

  class Deployer {
    const table: JobTable
    const conf: JobConf
    const world: World
    var log: seq<Event>
    var t: nat

    constructor (table: JobTable, conf: JobConf, world: World)
      ensures this.table == table && this.conf == conf && this.world == world
      ensures log == [] && t == 0
    {
      this.table, this.conf, this.world := table, conf, world;
      log, t := [], 0;
    }

    /** updateJobAllocationHashes: stages every allocation that is not removed. */
    method UpdateAllocationHashes(staged: map<string, FileManifest>, hashes: map<string, Hash>)
      requires forall w :: w in staged ==> w in hashes && hashes[w] == Aggregate(staged[w])
      modifies table
      ensures table.rows == Refresh(old(table.rows), staged)
    {
      hide UpdatePlan, Aggregate;
      var rows := table.rows;
      var left := rows.Keys;
      while left != {}
        invariant left <= rows.Keys && table.rows.Keys == rows.Keys
        invariant forall w :: w in rows ==>
                    table.rows[w] == if w in left then rows[w] else Refresh(rows, staged)[w]
        decreases left
      {
        var w :| w in left;
        if !rows[w].removed && w in staged {
          table.UpdateAllocationPlan(w, hashes[w], staged[w]);
        }
        left := left - {w};
      }
      assert table.rows == Refresh(rows, staged);
    }

    /** Promotes the batch, then runs its health gate; only a failing batch is marked. */
    method PromoteThenHealth(action: Action, batch: seq<string>, healthy: bool) returns (ok: bool)
      requires forall w :: w in batch ==> w in table.rows
      modifies table, this`log
      ensures ok == healthy
      ensures var promoted := PromoteRows(old(table.rows), batch);
              table.rows == if healthy then promoted else MarkRows(promoted, batch)
      ensures log == old(log) + [Event(Promoting, action, batch),
                                 Event(if healthy then Passing else Failing, action, batch)]
    {
      table.PromoteAllocationWorkers(batch);
      log := log + [Event(Promoting, action, batch)];
      if !healthy {
        table.MarkAllocationWorkersHealthFailed(batch);
        log := log + [Event(Failing, action, batch)];
        return false;
      }
      log := log + [Event(Passing, action, batch)];
      return true;
    }

    /** One turn of the batch loop. */
    method RunBatch(action: Action, batch: seq<string>, force: bool, ghost rest: seq<seq<string>>,
                    ghost before: seq<Event>, ghost whole: Run) returns (ok: bool)
      requires forall w :: w in batch ==> w in table.rows
      requires Resumes(log, RunBatches(table.rows, action, [batch] + rest, force, world, t), before, whole)
      modifies table, this`log, this`t
      ensures table.rows.Keys == old(table.rows.Keys)
      ensures ok ==> Resumes(log, RunBatches(table.rows, action, rest, force, world, t), before, whole)
      ensures !ok ==> !whole.ok && whole.rows == table.rows && whole.t == t && before + whole.log == log
    {
      hide RunBatches, PromoteRows, MarkRows, Resumes;
      ResumeStep(log, table.rows, action, batch, rest, force, world, t, before, whole);
      var o := world(t);
      t := t + 1;
      if !force && !o.preHealth {
        return false;
      }
      log := log + [Event(Acting, action, batch)];
      if !o.lifecycle {
        return false;
      }
      log := log + [Event(Hooking, action, batch)];
      assert log == old(log) + HookedLog(action, batch);
      if !o.hooks {
        return false;
      }
      ok := PromoteThenHealth(action, batch, o.postHealth);
    }

    /** rolloutStartBatches and rolloutRestartBatches. */
    method RolloutBatches(action: Action, candidates: seq<string>, limit: int, force: bool) returns (ok: bool)
      modifies table, this`log, this`t
      ensures var r := Phase(old(table.rows), conf, action, candidates, limit, force, world, old(t));
              ok == r.ok && table.rows == r.rows && log == old(log) + r.log && t == r.t
    {
      hide Split, ResolveOrder, Filter, PromoteRows, MarkRows, Active, RunBatches;
      var rows := table.rows;
      var active := Filter(candidates, w => w in rows && Active(rows[w]));
      FilterMember(candidates, w => w in rows && Active(rows[w]));
      var ordered := ResolveOrder(active, conf.catalog, conf.storedOrder);
      OrderWithin(active, conf.catalog, conf.storedOrder);
      var size := EffectiveBatchSize(limit, |ordered|, conf.hardCap);
      ghost var whole := Phase(rows, conf, action, candidates, limit, force, world, t);
      if |ordered| == 0 {
        NoneRun(rows, action, force, world, t);
        assert log + [] == log;
        return true;
      }
      var i := 0;
      assert ordered[0..] == ordered;
      while i < |ordered|
        invariant 0 <= i <= |ordered|
        invariant table.rows.Keys == rows.Keys
        invariant Resumes(log, RunBatches(table.rows, action, Split(ordered[i..], size), force, world, t),
                          old(log), whole)
      {
        var end := if i + size > |ordered| then |ordered| else i + size;
        SplitStep(ordered, i, end, size);
        assert forall w :: w in ordered[i..end] ==> w in ordered;
        var passed := RunBatch(action, ordered[i..end], force, Split(ordered[end..], size), old(log), whole);
        if !passed {
          return false;
        }
        i := end;
      }
      NoBatches(ordered, i, size);
      NoneRun(table.rows, action, force, world, t);
      assert log + [] == log;
      return true;
    }

    method HandleNewAllocations(force: bool) returns (ok: bool)
      requires t == 0
      modifies table, this`log, this`t
      ensures var r := StartPhase(old(table.rows), conf, force, world);
              ok == r.ok && table.rows == r.rows && log == old(log) + r.log && t == r.t
    {
      hide Phase;
      var candidates := NewWorkers(table.rows, conf);
      ok := RolloutBatches(Start, candidates, conf.maxStarts, force);
    }

    /** Classifies the updated allocations, then reloads and restarts them. */
    method HandleUpdatedAllocations(force: bool) returns (ok: bool)
      modifies table, this`log, this`t
      ensures var r := UpdatePhase(old(table.rows), conf, force, world, old(t));
              ok == r.ok && table.rows == r.rows && log == old(log) + r.log && t == r.t
    {
      hide Phase, NeedingRestart, UpdateAction, Filter;
      var rows := table.rows;
      var updated := NeedingRestart(rows, conf, force);
      var restarts: seq<string> := [];
      var reloads: seq<string> := [];
      NothingFiltered(rows);
      assert updated[..0] == [];
      for k := 0 to |updated|
        invariant table.rows == rows && log == old(log) && t == old(t)
        invariant restarts == WorkersFor(Restart, rows, conf, updated[..k])
        invariant reloads == WorkersFor(Reload, rows, conf, updated[..k])
      {
        var w := updated[k];
        assert updated[..k + 1] == updated[..k] + [w];
        FilterSnoc(updated[..k], w, x => x in rows && UpdateAction(rows[x], conf) == Restart);
        FilterSnoc(updated[..k], w, x => x in rows && UpdateAction(rows[x], conf) == Reload);
        if w in rows {
          var action := UpdateAction(rows[w], conf);
          if action == Restart {
            restarts := restarts + [w];
          } else if action == Reload {
            reloads := reloads + [w];
          }
        }
      }
      assert updated[..|updated|] == updated;
      assert reloads == WorkersFor(Reload, rows, conf, updated);
      assert restarts == WorkersFor(Restart, rows, conf, updated);
      ok := RolloutBatches(Reload, reloads, RestartLimit(conf), force);
      if !ok {
        return;
      }
      ok := RolloutBatches(Restart, restarts, RestartLimit(conf), force);
    }

    lemma NothingFiltered(rows: Rows)
      ensures WorkersFor(Restart, rows, conf, []) == [] && WorkersFor(Reload, rows, conf, []) == []
    {
    }

    /** finalizeJobDeploy: promotes every allocation that is not removed. */
    method FinalizeJobDeploy()
      modifies table
      ensures table.rows == PromoteAll(old(table.rows))
    {
      var rows := table.rows;
      var left := rows.Keys;
      while left != {}
        invariant left <= rows.Keys && table.rows.Keys == rows.Keys
        invariant forall w :: w in rows ==>
                    table.rows[w] == if w in left || rows[w].removed then rows[w] else Promote(rows[w])
        decreases left
      {
        var w :| w in left;
        if !rows[w].removed {
          table.PromoteAllocationState(w);
        }
        left := left - {w};
      }
      assert table.rows == PromoteAll(rows);
    }

    /** The stateful deploy computes exactly the deploy function: same result, rows and events. */
    method DeployJob(force: bool) returns (ok: bool)
      requires t == 0 && log == []
      modifies table, this`log, this`t
      ensures var r := Rollout.DeployJob(old(table.rows), conf, force, world);
              ok == r.ok && table.rows == r.rows && log == r.log
    {
      hide StartPhase, UpdatePhase, JobNeedsRollout, PromoteAll;
      var needs := JobNeedsRollout(table.rows);
      if !needs && !force {
        return true;
      }
      ghost var r1 := StartPhase(table.rows, conf, force, world);
      ok := HandleNewAllocations(force);
      assert log == r1.log;
      if !ok {
        return;
      }
      ghost var r2 := UpdatePhase(table.rows, conf, force, world, t);
      ok := HandleUpdatedAllocations(force);
      assert log == r1.log + r2.log;
      if !ok {
        return;
      }
      FinalizeJobDeploy();
    }
  }

  lemma NoneRun(rows: Rows, action: Action, force: bool, world: World, t: nat)
    ensures RunBatches(rows, action, [], force, world, t) == Run(rows, true, [], t)
  {
  }

  lemma NoBatches(ordered: seq<string>, i: nat, size: nat)
    requires i == |ordered| && size >= 1
    ensures Split(ordered[i..], size) == []
  {
  }
}
