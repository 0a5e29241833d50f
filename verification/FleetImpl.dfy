/** A deploy run as the program runs it: flags, an outcome map and a transaction that commits partial
    progress (deploy/execute.go, deploy/history.go). */
module FleetImpl {
  import opened Manifest
  import opened Catalog
  import opened Rollout
  import opened RolloutImpl
  import opened Fleet

  method AllJobsDeployedOrSkipped(deployable: seq<string>, outcomes: map<string, JobOutcome>) returns (clean: bool)
    ensures clean == AllClean(deployable, outcomes)
  {
    for k := 0 to |deployable|
      invariant AllClean(deployable[..k], outcomes)
    {
      var j := deployable[k];
      if j !in outcomes {
        return false;
      }
      if outcomes[j] != Deployed && outcomes[j] != Skipped {
        return false;
      }
      assert deployable[..k + 1] == deployable[..k] + [j];
    }
    assert deployable[..|deployable|] == deployable;
    return true;
  }

  /** The refresh loop from its k-th job on, with the failures seen before it. */
  ghost function Seen(failed: set<string>, r: Refreshed): Refreshed {
    r.(failed := failed + r.failed)
  }

  lemma RefreshStart(jobs: map<string, Rows>, todo: seq<string>, x: Inputs)
    requires forall j :: j in todo ==> j in jobs && j in x.staging
    ensures Seen({}, RefreshJobs(jobs, todo[0..], x)) == RefreshJobs(jobs, todo, x)
  {
    hide RefreshJobs;
    assert todo[0..] == todo;
    assert {} + RefreshJobs(jobs, todo, x).failed == RefreshJobs(jobs, todo, x).failed;
  }

  lemma RefreshStep(tx: map<string, Rows>, todo: seq<string>, k: nat, x: Inputs, failed: set<string>)
    requires k < |todo| && forall j :: j in todo ==> j in tx && j in x.staging
    ensures var j := todo[k];
            var next := tx[j := Refresh(tx[j], x.staging[j].staged)];
            var all := Seen(failed, RefreshJobs(tx, todo[k..], x));
            match x.staging[j]
            case Cancelled(_) => all == Refreshed(next, failed, true)
            case Broken(_) => all == Seen(failed + {j}, RefreshJobs(next, todo[k + 1..], x))
            case Complete(_) => all == Seen(failed, RefreshJobs(next, todo[k + 1..], x))
  {
    hide Refresh;
    var j := todo[k];
    assert todo[k..][0] == j && todo[k..][1..] == todo[k + 1..];
    var r := RefreshJobs(tx[j := Refresh(tx[j], x.staging[j].staged)], todo[k + 1..], x);
    assert failed + (r.failed + {j}) == failed + {j} + r.failed;
    assert failed + {} == failed;
  }

  lemma RefreshEnd(tx: map<string, Rows>, todo: seq<string>, x: Inputs, failed: set<string>)
    ensures Seen(failed, RefreshJobs(tx, todo[|todo|..], x)) == Refreshed(tx, failed, false)
  {
    assert failed + {} == failed;
  }

  class Bucket {
    var jobs: map<string, Rows>
    var generation: nat
    var workerJson: map<string, nat>

    constructor (jobs: map<string, Rows>, generation: nat, workerJson: map<string, nat>)
      ensures Contents() == State(jobs, generation, workerJson)
    {
      this.jobs, this.generation, this.workerJson := jobs, generation, workerJson;
    }

    function Contents(): State
      reads this
    {
      State(jobs, generation, workerJson)
    }

    /** Stages one job's allocations. */
    static method RefreshJob(rows: Rows, conf: JobConf, world: World, staged: map<string, FileManifest>,
                             hashes: map<string, Hash>) returns (next: Rows)
      requires forall w :: w in staged ==> w in hashes && hashes[w] == Aggregate(staged[w])
      ensures next == Refresh(rows, staged)
    {
      hide Refresh, Aggregate;
      var table := new JobTable(rows);
      var d := new Deployer(table, conf, world);
      d.UpdateAllocationHashes(staged, hashes);
      next := table.rows;
    }

    /** Stages the jobs in order; a cancelled job ends the loop, a broken one is only recorded. */
    static method RefreshPlans(jobs: map<string, Rows>, x: Inputs, hashes: map<string, map<string, Hash>>)
      returns (tx: map<string, Rows>, failed: set<string>, cancelled: bool)
      requires forall j :: j in x.deployable ==> j in jobs && j in x.staging && j in hashes
      requires forall j, w :: j in x.deployable && w in x.staging[j].staged ==>
                 w in hashes[j] && hashes[j][w] == Aggregate(x.staging[j].staged[w])
      requires forall j :: j in x.deployable ==> j in x.conf && j in x.world
      ensures Refreshed(tx, failed, cancelled) == RefreshJobs(jobs, x.deployable, x)
    {
      hide Refresh, Aggregate, RefreshJobs, Seen;
      tx, failed, cancelled := jobs, {}, false;
      var todo := x.deployable;
      RefreshStart(jobs, todo, x);
      for k := 0 to |todo|
        invariant tx.Keys == jobs.Keys && !cancelled
        invariant Seen(failed, RefreshJobs(tx, todo[k..], x)) == RefreshJobs(jobs, todo, x)
      {
        var j := todo[k];
        RefreshStep(tx, todo, k, x, failed);
        var next := RefreshJob(tx[j], x.conf[j], x.world[j], x.staging[j].staged, hashes[j]);
        tx := tx[j := next];
        match x.staging[j]
        case Cancelled(_) =>
          cancelled := true;
          return;
        case Broken(_) =>
          failed := failed + {j};
        case Complete(_) =>
      }
      RefreshEnd(tx, todo, x, failed);
    }

    /** The job loop: skips what is complete, deploys the rest, and stops at the first failure. */
    static method DeployLoop(jobs: map<string, Rows>, start: map<string, JobOutcome>, x: Inputs, failed: set<string>)
      returns (tx: map<string, Rows>, outcomes: map<string, JobOutcome>, entered: set<string>)
      requires forall j :: j in x.deployable ==> j in jobs && j in x.conf && j in x.world
      ensures Progress(tx, outcomes, entered) == DeployJobs(Progress(jobs, start, {}), x.deployable, x, failed)
    {
      hide DeployJob, JobNeedsRollout;
      tx, outcomes, entered := jobs, start, {};
      var todo := x.deployable;
      assert todo[0..] == todo;
      for k := 0 to |todo|
        invariant tx.Keys == jobs.Keys
        invariant DeployJobs(Progress(tx, outcomes, entered), todo[k..], x, failed)
               == DeployJobs(Progress(jobs, start, {}), todo, x, failed)
      {
        var j := todo[k];
        assert todo[k..][1..] == todo[k + 1..];
        assert todo[k..][0] == j;
        if j in failed {
          continue;
        }
        var needs := JobNeedsRollout(tx[j]);
        if !x.force && !needs {
          outcomes := outcomes[j := Skipped];
          continue;
        }
        var table := new JobTable(tx[j]);
        var d := new Deployer(table, x.conf[j], x.world[j]);
        var ok := d.DeployJob(x.force);
        tx := tx[j := table.rows];
        entered := entered + {j};
        if !ok {
          outcomes := outcomes[j := Failed];
          return;
        }
        outcomes := outcomes[j := Deployed];
      }
      assert todo[|todo|..] == [];
    }

    /** From staging to the end of the job loop. */
    static method RunToJobs(s: State, x: Inputs, hashes: map<string, map<string, Hash>>)
      returns (tx: map<string, Rows>, outcomes: map<string, JobOutcome>, entered: set<string>, abort: bool,
               failures: set<Failure>)
      requires InputsOk(s, x)
      requires forall j :: j in x.deployable ==> j in hashes
      requires forall j, w :: j in x.deployable && w in x.staging[j].staged ==>
                 w in hashes[j] && hashes[j][w] == Aggregate(x.staging[j].staged[w])
      ensures Progress(tx, outcomes, entered) == RunJobs(s, x)
      ensures abort == Aborted(s, x)
      ensures forall f :: f in failures <==>
                f in {StagingFailed, PreHooksReported, ReconcileFailed, JobFailed, JobDataLost} && Reports(s, x, f)
    {
      hide RefreshJobs, DeployJobs, Aggregate;
      failures := {};
      var failed;
      tx, failed, abort := RefreshPlans(s.jobs, x, hashes);
      outcomes := map j | j in failed :: Failed;
      entered := {};
      assert outcomes == FailedOutcomes(failed);
      if failed != {} {
        failures := failures + {StagingFailed};
      }
      if !abort {
        if x.preHooksReport {
          failures := failures + {PreHooksReported};
        }
        abort := x.preHooksAbort;
      }
      if !abort && !x.reconciled {
        failures := failures + {ReconcileFailed};
        abort := true;
      }
      if abort {
        return;
      }
      tx, outcomes, entered := DeployLoop(tx, outcomes, x, failed);
      if exists j :: j in entered && j in outcomes && outcomes[j] == Failed {
        failures := failures + {JobFailed};
        abort := true;
      }
      if entered * x.kvFails != {} {
        failures := failures + {JobDataLost};
      }
    }

    /** The stateful run computes exactly the run function, and collects exactly the errors it reports. */
    method Execute(x: Inputs, hashes: map<string, map<string, Hash>>)
      returns (jobsClean: bool, failures: set<Failure>)
      requires InputsOk(Contents(), x)
      requires forall j :: j in x.deployable ==> j in hashes
      requires forall j, w :: j in x.deployable && w in x.staging[j].staged ==>
                 w in hashes[j] && hashes[j][w] == Aggregate(x.staging[j].staged[w])
      modifies this
      ensures Contents() == Fleet.Execute(old(Contents()), x)
      ensures jobsClean == (x.prepared && Clean(old(Contents()), x))
      ensures x.prepared ==> failures == Reported(old(Contents()), x)
    {
      hide RunJobs, Aborted, Aggregate, Reports, Reported, InputsOk, AllClean;
      failures := {};
      if !x.prepared {
        return false, failures;
      }
      var previous := generation;
      var bumped := generation + 1;
      var tx, outcomes, entered, abort;
      tx, outcomes, entered, abort, failures := RunToJobs(Contents(), x, hashes);
      ReportedParts(Contents(), x, failures);
      jobsClean := AllJobsDeployedOrSkipped(x.deployable, outcomes);
      if !x.metadataOk {
        failures := failures + {MetadataFailed};
      }
      if jobsClean {
        workerJson := map w | w in workerJson.Keys + x.synced :: if w in x.synced then bumped else workerJson[w];
      }
      if !abort && x.postHooksReport {
        failures := failures + {PostHooksReported};
      }
      if !jobsClean {
        bumped := previous;
      }
      if !x.recorded {
        failures := failures + {RecordFailed};
      }
      if x.committed {
        jobs, generation := tx, bumped;
      }
    }
  }
}
