/** A whole deploy run: staging, the job loop, the generation bump and the worker metadata
    (deploy/execute.go, deploy/history.go, deploy/final_sync.go, deploy/sync_workers.go). */
module Fleet {
  import opened Prelude
  import opened StringOrder
  import opened Manifest
  import opened Catalog
  import opened RolloutPolicy
  import opened Rollout
  import opened RolloutFacts
  import opened DeployTheorems

  datatype JobOutcome = Deployed | Skipped | Failed

  /** Staging a job: complete, failed after refreshing part of its rows, or cancelled the same way. */
  datatype Staging =
    | Complete(staged: map<string, FileManifest>)
    | Broken(staged: map<string, FileManifest>)
    | Cancelled(staged: map<string, FileManifest>)

  /** Catalog tables, generation, and the generation in each worker's worker.json. */
  datatype State = State(jobs: map<string, Rows>, generation: nat, workerJson: map<string, nat>)

  /** Everything the outside decides about one run. `preHooksReport` and `postHooksReport`: some step of the hooks
      before or after the deploy reported an error; `preHooksAbort`: one that ends the run. `kvFails`: jobs whose
      hook data cannot be persisted after their deploy. `synced`: workers whose metadata sync delivered worker.json,
      when it is included; `metadataOk`: the whole sync reported success. `recorded`: the history and the vacuum
      after it succeed. */
  datatype Inputs = Inputs(
    deployable: seq<string>,
    force: bool,
    prepared: bool,
    staging: map<string, Staging>,
    preHooksReport: bool,
    preHooksAbort: bool,
    reconciled: bool,
    conf: map<string, JobConf>,
    world: map<string, World>,
    kvFails: set<string>,
    workers: set<string>,
    synced: set<string>,
    metadataOk: bool,
    postHooksReport: bool,
    recorded: bool,
    committed: bool)

  /** Each deployable job is listed once, has rows and settings, and complete staging covers its rows. Hooks run job
      by job, so they can only report when there is a deployable job, and what aborts is reported. A sync that
      reports success has reached every worker, and without workers there is nothing to sync. */
  ghost predicate InputsOk(s: State, x: Inputs) {
    && Distinct(x.deployable)
    && (x.deployable == [] ==> !x.preHooksReport && !x.postHooksReport)
    && (x.preHooksAbort ==> x.preHooksReport)
    && x.synced <= x.workers
    && (x.metadataOk ==> x.synced == x.workers)
    && (x.workers == {} ==> x.metadataOk)
    && forall j :: j in x.deployable ==>
         && j in s.jobs && j in x.staging && j in x.conf && j in x.world
         && ConfOk(s.jobs[j], x.conf[j])
         && (x.staging[j].Complete? ==>
               forall w :: w in s.jobs[j] && !s.jobs[j][w].removed ==> w in x.staging[j].staged)
  }

  // ---- Staging ----

  /** Tables after the refresh loop, the jobs whose staging failed, and whether the loop was cancelled. */
  datatype Refreshed = Refreshed(jobs: map<string, Rows>, failed: set<string>, cancelled: bool)

  ghost function RefreshJobs(jobs: map<string, Rows>, todo: seq<string>, x: Inputs): (r: Refreshed)
    requires forall j :: j in todo ==> j in jobs && j in x.staging
    ensures r.jobs.Keys == jobs.Keys
    decreases |todo|
  {
    if todo == [] then Refreshed(jobs, {}, false)
    else
      var j := todo[0];
      var next := jobs[j := Refresh(jobs[j], x.staging[j].staged)];
      match x.staging[j]
      case Cancelled(_) => Refreshed(next, {}, true)
      case Broken(_) =>
        var r := RefreshJobs(next, todo[1..], x);
        r.(failed := r.failed + {j})
      case Complete(_) => RefreshJobs(next, todo[1..], x)
  }

  // ---- The job loop ----

  /** Tables, outcomes, and the jobs whose deploy was entered. */
  datatype Progress = Progress(jobs: map<string, Rows>, outcomes: map<string, JobOutcome>, entered: set<string>)

  function DeployJobs(p: Progress, todo: seq<string>, x: Inputs, failed: set<string>): (r: Progress)
    requires forall j :: j in todo ==> j in p.jobs && j in x.conf && j in x.world
    ensures r.jobs.Keys == p.jobs.Keys
    decreases |todo|
  {
    if todo == [] then p
    else
      var j := todo[0];
      if j in failed then DeployJobs(p, todo[1..], x, failed)
      else if !x.force && !JobNeedsRollout(p.jobs[j]) then
        DeployJobs(p.(outcomes := p.outcomes[j := Skipped]), todo[1..], x, failed)
      else
        var run := DeployJob(p.jobs[j], x.conf[j], x.force, x.world[j]);
        var jobs, entered := p.jobs[j := run.rows], p.entered + {j};
        if run.ok then DeployJobs(Progress(jobs, p.outcomes[j := Deployed], entered), todo[1..], x, failed)
        else Progress(jobs, p.outcomes[j := Failed], entered)
  }

  /** allJobsDeployedOrSkipped. */
  predicate AllClean(deployable: seq<string>, outcomes: map<string, JobOutcome>) {
    forall j :: j in deployable ==> j in outcomes && outcomes[j] != Failed
  }

  ghost function FailedOutcomes(failed: set<string>): map<string, JobOutcome> {
    map j | j in failed :: Failed
  }

  /** Tables and outcomes when the job loop ends, or is never entered. */
  ghost function RunJobs(s: State, x: Inputs): (r: Progress)
    requires InputsOk(s, x)
    ensures r.jobs.Keys == s.jobs.Keys
  {
    var staged := RefreshJobs(s.jobs, x.deployable, x);
    var start := Progress(staged.jobs, FailedOutcomes(staged.failed), {});
    if staged.cancelled || x.preHooksAbort || !x.reconciled then start
    else DeployJobs(start, x.deployable, x, staged.failed)
  }

  ghost predicate Clean(s: State, x: Inputs)
    requires InputsOk(s, x)
  {
    AllClean(x.deployable, RunJobs(s, x).outcomes)
  }

  /** One run. An unprepared run rolls everything back. worker.json is written, with the bumped generation,
      only after a clean run; the bump is kept only then; the tables are committed either way. */
  ghost function Execute(s: State, x: Inputs): (r: State)
    requires InputsOk(s, x)
    ensures r.jobs.Keys == s.jobs.Keys
  {
    if !x.prepared then s
    else
      var clean := Clean(s, x);
      var json := if clean then map w | w in s.workerJson.Keys + x.synced ::
                         if w in x.synced then s.generation + 1 else s.workerJson[w]
                  else s.workerJson;
      if !x.committed then s.(workerJson := json)
      else State(RunJobs(s, x).jobs, if clean then s.generation + 1 else s.generation, json)
  }

  // ---- When a run is clean ----

  lemma {:induction false} RefreshOne(jobs: map<string, Rows>, todo: seq<string>, x: Inputs, j: string)
    requires forall k :: k in todo ==> k in jobs && k in x.staging
    requires Distinct(todo) && j in jobs
    ensures var r := RefreshJobs(jobs, todo, x);
            && (j !in todo ==> r.jobs[j] == jobs[j] && j !in r.failed)
            && (j in todo && !r.cancelled ==>
                  && r.jobs[j] == Refresh(jobs[j], x.staging[j].staged)
                  && !x.staging[j].Cancelled?
                  && (j in r.failed <==> x.staging[j].Broken?))
            && r.failed <= set k | k in todo
    decreases |todo|
  {
    hide Refresh;
    if todo != [] {
      var k := todo[0];
      var next := jobs[k := Refresh(jobs[k], x.staging[k].staged)];
      assert k !in todo[1..];
      TailDistinct(todo);
      RefreshOne(next, todo[1..], x, j);
    }
  }

  lemma TailDistinct(xs: seq<string>)
    requires Distinct(xs) && xs != []
    ensures Distinct(xs[1..]) && xs[0] !in xs[1..]
  {
  }

  lemma {:induction false} RefreshCancelled(jobs: map<string, Rows>, todo: seq<string>, x: Inputs)
    requires forall k :: k in todo ==> k in jobs && k in x.staging
    ensures RefreshJobs(jobs, todo, x).cancelled <==> exists j :: j in todo && x.staging[j].Cancelled?
    decreases |todo|
  {
    hide Refresh;
    if todo != [] {
      var k := todo[0];
      RefreshCancelled(jobs[k := Refresh(jobs[k], x.staging[k].staged)], todo[1..], x);
      assert todo == [k] + todo[1..];
    }
  }

  /** What the loop does for one job: nothing if its staging failed, otherwise skip it or deploy it. */
  ghost function JobRun(rows: Rows, x: Inputs, j: string): Run
    requires j in x.conf && j in x.world
  {
    DeployJob(rows, x.conf[j], x.force, x.world[j])
  }

  /** The loop leaves other jobs and their outcomes alone. */
  lemma {:induction false} LoopFrame(p: Progress, todo: seq<string>, x: Inputs, failed: set<string>, j: string)
    requires forall k :: k in todo ==> k in p.jobs && k in x.conf && k in x.world
    requires j in p.jobs && (j !in todo || j in failed)
    ensures var r := DeployJobs(p, todo, x, failed);
            && r.jobs[j] == p.jobs[j]
            && (j in r.outcomes <==> j in p.outcomes)
            && (j in p.outcomes ==> r.outcomes[j] == p.outcomes[j])
    decreases |todo|
  {
    hide DeployJob, JobNeedsRollout;
    if todo != [] {
      var k := todo[0];
      assert todo == [k] + todo[1..];
      if k in failed {
        LoopFrame(p, todo[1..], x, failed, j);
      } else if !x.force && !JobNeedsRollout(p.jobs[k]) {
        LoopFrame(p.(outcomes := p.outcomes[k := Skipped]), todo[1..], x, failed, j);
      } else {
        var run := DeployJob(p.jobs[k], x.conf[k], x.force, x.world[k]);
        if run.ok {
          var next := Progress(p.jobs[k := run.rows], p.outcomes[k := Deployed], p.entered + {k});
          LoopFrame(next, todo[1..], x, failed, j);
        }
      }
    }
  }

  /** Every job of the list was staged and its deploy succeeds. */
  ghost predicate AllSucceed(jobs: map<string, Rows>, todo: seq<string>, x: Inputs, failed: set<string>)
    requires forall k :: k in todo ==> k in jobs && k in x.conf && k in x.world
  {
    forall j :: j in todo ==> j !in failed && JobRun(jobs[j], x, j).ok
  }

  lemma IdleJob(rows: Rows, x: Inputs, j: string)
    requires j in x.conf && j in x.world && !x.force && !JobNeedsRollout(rows)
    ensures JobRun(rows, x, j).ok && JobRun(rows, x, j).rows == rows
  {
  }

  /** If every job succeeds, every job ends deployed or skipped, with the rows of its own run. */
  lemma {:induction false} LoopSucceeds(p: Progress, todo: seq<string>, x: Inputs, failed: set<string>)
    requires Distinct(todo) && forall k :: k in todo ==> k in p.jobs && k in x.conf && k in x.world
    requires AllSucceed(p.jobs, todo, x, failed)
    ensures var r := DeployJobs(p, todo, x, failed);
            forall j :: j in todo ==>
              j in r.outcomes && r.outcomes[j] != Failed && r.jobs[j] == JobRun(p.jobs[j], x, j).rows
    decreases |todo|
  {
    hide DeployJob, JobNeedsRollout, Distinct;
    if todo != [] {
      var k, rest := todo[0], todo[1..];
      TailDistinct(todo);
      assert todo == [k] + rest;
      var idle := !x.force && !JobNeedsRollout(p.jobs[k]);
      if idle {
        IdleJob(p.jobs[k], x, k);
      }
      var run := JobRun(p.jobs[k], x, k);
      var next := if idle then p.(outcomes := p.outcomes[k := Skipped])
                  else Progress(p.jobs[k := run.rows], p.outcomes[k := Deployed], p.entered + {k});
      LoopSucceeds(next, rest, x, failed);
      LoopFrame(next, rest, x, failed, k);
    }
  }

  /** If some job does not, some job ends failed. */
  lemma {:induction false} LoopFails(p: Progress, todo: seq<string>, x: Inputs, failed: set<string>)
    requires Distinct(todo) && forall k :: k in todo ==> k in p.jobs && k in x.conf && k in x.world
    requires forall j :: j in todo && j in failed ==> j in p.outcomes && p.outcomes[j] == Failed
    requires !AllSucceed(p.jobs, todo, x, failed)
    ensures !AllClean(todo, DeployJobs(p, todo, x, failed).outcomes)
    decreases |todo|
  {
    hide DeployJob, JobNeedsRollout, Distinct;
    if todo != [] {
      var k, rest := todo[0], todo[1..];
      TailDistinct(todo);
      assert todo == [k] + rest;
      if k in failed {
        LoopFrame(p, todo, x, failed, k);
      } else {
        var idle := !x.force && !JobNeedsRollout(p.jobs[k]);
        if idle {
          IdleJob(p.jobs[k], x, k);
        }
        var run := JobRun(p.jobs[k], x, k);
        if run.ok {
          var next := if idle then p.(outcomes := p.outcomes[k := Skipped])
                      else Progress(p.jobs[k := run.rows], p.outcomes[k := Deployed], p.entered + {k});
          assert !AllSucceed(next.jobs, rest, x, failed);
          LoopFails(next, rest, x, failed);
        }
      }
    }
  }

  /** A run is clean exactly when there is nothing to deploy, or no step before the job loop stopped it,
      every job was staged completely and every job's deploy succeeds. */
  lemma CleanExactly(s: State, x: Inputs)
    requires InputsOk(s, x)
    ensures Clean(s, x) <==>
            || x.deployable == []
            || (&& !x.preHooksAbort && x.reconciled
                && forall j :: j in x.deployable ==>
                     x.staging[j].Complete? && JobRun(Refresh(s.jobs[j], x.staging[j].staged), x, j).ok)
  {
    hide DeployJobs, RefreshJobs, JobRun, Refresh, ConfOk;
    var staged := RefreshJobs(s.jobs, x.deployable, x);
    var start := Progress(staged.jobs, FailedOutcomes(staged.failed), {});
    RefreshCancelled(s.jobs, x.deployable, x);
    forall j | j in x.deployable && !staged.cancelled
      ensures && staged.jobs[j] == Refresh(s.jobs[j], x.staging[j].staged)
              && !x.staging[j].Cancelled?
              && (j in staged.failed <==> x.staging[j].Broken?)
    {
      RefreshOne(s.jobs, x.deployable, x, j);
    }
    if x.deployable != [] {
      var first := x.deployable[0];
      if staged.cancelled || x.preHooksAbort || !x.reconciled {
        assert !AllClean(x.deployable, start.outcomes) by {
          assert first in x.deployable;
        }
      } else if AllSucceed(start.jobs, x.deployable, x, staged.failed) {
        LoopSucceeds(start, x.deployable, x, staged.failed);
      } else {
        LoopFails(start, x.deployable, x, staged.failed);
      }
    }
  }

  // ---- What a run reports ----

  /** The errors that a run collects and ends with. */
  datatype Failure =
    | StagingFailed | PreHooksReported | ReconcileFailed | JobFailed | JobDataLost
    | MetadataFailed | PostHooksReported | RecordFailed

  /** The job loop stopped at a failed deploy. */
  ghost predicate LoopFailed(p: Progress) {
    exists j :: j in p.entered && j in p.outcomes && p.outcomes[j] == Failed
  }

  /** What ends a run before its post-deploy hooks. */
  ghost predicate Aborted(s: State, x: Inputs)
    requires InputsOk(s, x)
  {
    RefreshJobs(s.jobs, x.deployable, x).cancelled || x.preHooksAbort || !x.reconciled || LoopFailed(RunJobs(s, x))
  }

  /** Each kind of error, and when it is reported. A cancelled staging reports nothing itself and skips the rest. */
  ghost predicate Reports(s: State, x: Inputs, f: Failure)
    requires InputsOk(s, x)
  {
    var staged := RefreshJobs(s.jobs, x.deployable, x);
    match f
    case StagingFailed => staged.failed != {}
    case PreHooksReported => !staged.cancelled && x.preHooksReport
    case ReconcileFailed => !staged.cancelled && !x.preHooksAbort && !x.reconciled
    case JobFailed => LoopFailed(RunJobs(s, x))
    case JobDataLost => RunJobs(s, x).entered * x.kvFails != {}
    case MetadataFailed => !x.metadataOk
    case PostHooksReported => !Aborted(s, x) && x.postHooksReport
    case RecordFailed => !x.recorded
  }

  ghost function Reported(s: State, x: Inputs): set<Failure>
    requires InputsOk(s, x)
  {
    set f: Failure | Reports(s, x, f)
  }

  /** The errors up to the end of the job loop, and those after it. */
  lemma ReportedParts(s: State, x: Inputs, early: set<Failure>)
    requires InputsOk(s, x)
    requires forall f :: f in early <==>
               f in {StagingFailed, PreHooksReported, ReconcileFailed, JobFailed, JobDataLost} && Reports(s, x, f)
    ensures Reported(s, x) == early + (if x.metadataOk then {} else {MetadataFailed})
                                    + (if !Aborted(s, x) && x.postHooksReport then {PostHooksReported} else {})
                                    + (if x.recorded then {} else {RecordFailed})
  {
    hide RefreshJobs, RunJobs, LoopFailed, Aborted, InputsOk;
  }

  lemma {:induction false} LoopEntered(p: Progress, todo: seq<string>, x: Inputs, failed: set<string>)
    requires Distinct(todo) && forall k :: k in todo ==> k in p.jobs && k in x.conf && k in x.world
    requires !LoopFailed(p) && forall j :: j in todo ==> j !in p.entered
    ensures LoopFailed(DeployJobs(p, todo, x, failed)) <==>
            exists j :: j in todo && j !in failed && !JobRun(p.jobs[j], x, j).ok
    decreases |todo|
  {
    hide DeployJob, JobNeedsRollout, Distinct;
    if todo != [] {
      var k, rest := todo[0], todo[1..];
      TailDistinct(todo);
      assert todo == [k] + rest;
      var idle := !x.force && !JobNeedsRollout(p.jobs[k]);
      if k in failed {
        LoopEntered(p, rest, x, failed);
      } else if idle {
        IdleJob(p.jobs[k], x, k);
        LoopEntered(p.(outcomes := p.outcomes[k := Skipped]), rest, x, failed);
      } else {
        var run := JobRun(p.jobs[k], x, k);
        if run.ok {
          var next := Progress(p.jobs[k := run.rows], p.outcomes[k := Deployed], p.entered + {k});
          assert !LoopFailed(next);
          LoopEntered(next, rest, x, failed);
        } else {
          assert k in todo && k !in failed && !JobRun(p.jobs[k], x, k).ok;
        }
      }
    }
  }

  lemma StagedFailed(s: State, x: Inputs)
    requires InputsOk(s, x)
    ensures var staged := RefreshJobs(s.jobs, x.deployable, x);
            !staged.cancelled ==>
              && (staged.failed == {} <==> forall j :: j in x.deployable ==> x.staging[j].Complete?)
              && forall j :: j in x.deployable ==> staged.jobs[j] == Refresh(s.jobs[j], x.staging[j].staged)
  {
    hide RefreshJobs, Refresh, ConfOk;
    var staged := RefreshJobs(s.jobs, x.deployable, x);
    if !staged.cancelled {
      forall j | j in x.deployable
        ensures staged.jobs[j] == Refresh(s.jobs[j], x.staging[j].staged)
        ensures j in staged.failed <==> !x.staging[j].Complete?
      {
        RefreshOne(s.jobs, x.deployable, x, j);
      }
      FailedListed(s, x);
    }
  }

  lemma FailedListed(s: State, x: Inputs)
    requires InputsOk(s, x)
    ensures forall j :: j in RefreshJobs(s.jobs, x.deployable, x).failed ==> j in x.deployable
  {
    hide Refresh, ConfOk, RefreshJobs;
    if x.deployable != [] {
      RefreshOne(s.jobs, x.deployable, x, x.deployable[0]);
    } else {
      NothingRefreshed(s.jobs, x);
    }
  }

  lemma NothingRefreshed(jobs: map<string, Rows>, x: Inputs)
    ensures RefreshJobs(jobs, [], x) == Refreshed(jobs, {}, false)
  {
  }

  /** The errors that concern the jobs. */
  predicate Stops(f: Failure) {
    f.StagingFailed? || f.ReconcileFailed? || f.JobFailed?
  }

  lemma StopsReported(s: State, x: Inputs)
    requires InputsOk(s, x)
    ensures var staged := RefreshJobs(s.jobs, x.deployable, x);
            (forall f :: f in Reported(s, x) ==> !Stops(f)) <==>
            && staged.failed == {}
            && (staged.cancelled || x.preHooksAbort || x.reconciled)
            && !LoopFailed(RunJobs(s, x))
  {
    hide RefreshJobs, RunJobs, LoopFailed, InputsOk, Aborted;
    assert StagingFailed in Reported(s, x) <==> Reports(s, x, StagingFailed);
    assert ReconcileFailed in Reported(s, x) <==> Reports(s, x, ReconcileFailed);
    assert JobFailed in Reported(s, x) <==> Reports(s, x, JobFailed);
  }

  /** A run with something deployable is clean exactly when no error it reports concerns the jobs, no pre-deploy hook
      aborted it and no staging was cancelled. Every other reported error, of soft pre-deploy steps, hook data,
      metadata, post-deploy hooks or records, leaves it clean. */
  lemma CleanWhenReported(s: State, x: Inputs)
    requires InputsOk(s, x)
    ensures Clean(s, x) <==>
            || x.deployable == []
            || (&& (forall f :: f in Reported(s, x) ==> !Stops(f))
                && !x.preHooksAbort && forall j :: j in x.deployable ==> !x.staging[j].Cancelled?)
  {
    hide DeployJobs, RefreshJobs, JobRun, Refresh, ConfOk, Reported, LoopFailed, Clean;
    CleanExactly(s, x);
    StagedFailed(s, x);
    StopsReported(s, x);
    RefreshCancelled(s.jobs, x.deployable, x);
    var staged := RefreshJobs(s.jobs, x.deployable, x);
    var start := Progress(staged.jobs, FailedOutcomes(staged.failed), {});
    NothingEntered(start);
    if x.deployable != [] && !staged.cancelled && !x.preHooksAbort && x.reconciled {
      LoopEntered(start, x.deployable, x, staged.failed);
    }
  }

  lemma NothingEntered(p: Progress)
    requires p.entered == {}
    ensures !LoopFailed(p)
  {
  }

  /** A run with something deployable that reports nothing is clean unless its staging was cancelled. */
  lemma SilentRunClean(s: State, x: Inputs)
    requires InputsOk(s, x) && Reported(s, x) == {} && x.deployable != []
    ensures Clean(s, x) <==> forall j :: j in x.deployable ==> !x.staging[j].Cancelled?
  {
    hide RunJobs, LoopFailed;
    CleanWhenReported(s, x);
    RefreshCancelled(s.jobs, x.deployable, x);
    assert PreHooksReported !in Reported(s, x);
  }

  // ---- Runs that show it ----

  /** One job on one new worker. */
  const OneJob: State := State(map["j" := map["w" := Fresh]], 0, map[])
  const OneConf: JobConf := JobConf(Always, [], [], 1, 1, 1, ["w"], ["w"], None)
  const GoodWorld: World := t => Outcome(true, true, true, true)

  /** Everything goes well but the metadata sync, which reaches nobody. */
  const SyncFails: Inputs := Inputs(
    ["j"], false, true, map["j" := Complete(map["w" := map[]])], false, false, true, map["j" := OneConf],
    map["j" := GoodWorld], {}, {"w"}, {}, false, false, true, true)

  /** The same job, its staging cancelled, and everything else going well. */
  const StagingCancelled: Inputs := SyncFails.(
    staging := map["j" := Cancelled(map["w" := map[]])], synced := {"w"}, metadataOk := true)

  lemma FreshStaged()
    ensures Refresh(OneJob.jobs["j"], map["w" := map[]]) == OneJob.jobs["j"]
    ensures JobNeedsRollout(OneJob.jobs["j"]) && ConfOk(OneJob.jobs["j"], OneConf) && AllGood(GoodWorld)
  {
    var rows := OneJob.jobs["j"];
    assert rows == map["w" := Fresh];
    SortedUnique(Sorted({}), []);
    var none: FileManifest := map[];
    assert none.Keys == {};
    assert Aggregate(none) == Tree([]);
    assert NeedsRollout(rows["w"]);
  }

  /** A deployed job, a sync that reached no worker, and a run that reports the failure: it is clean, and the raised
      generation stays. */
  lemma SyncFailureIsClean()
    ensures InputsOk(OneJob, SyncFails) && Reported(OneJob, SyncFails) == {MetadataFailed}
    ensures Clean(OneJob, SyncFails) && RunJobs(OneJob, SyncFails).outcomes == map["j" := Deployed]
    ensures Execute(OneJob, SyncFails).generation == 1 && Execute(OneJob, SyncFails).workerJson == map[]
  {
    hide DeployJob, JobNeedsRollout, Refresh, ConfOk, AllGood;
    var s, x := OneJob, SyncFails;
    FreshStaged();
    assert s.jobs["j"] == map["w" := Fresh];
    assert InputsOk(s, x);
    assert x.deployable[1..] == [];
    assert s.jobs["j" := s.jobs["j"]] == s.jobs;
    assert RefreshJobs(s.jobs, x.deployable, x) == Refreshed(s.jobs, {}, false);
    GoodWorldSucceeds(s.jobs["j"], OneConf, false, GoodWorld);
    var run := DeployJob(s.jobs["j"], OneConf, false, GoodWorld);
    var after := Progress(s.jobs["j" := run.rows], map["j" := Deployed], {"j"});
    assert FailedOutcomes({}) == map[];
    assert DeployJobs(after, [], x, {}) == after;
    assert {} + {"j"} == {"j"};
    assert RunJobs(s, x) == after;
    assert !LoopFailed(after);
    assert after.entered * x.kvFails == {};
    forall f: Failure
      ensures Reports(s, x, f) <==> f == MetadataFailed
    {
    }
  }

  /** The same job with its staging cancelled and all else well: the run reports nothing, yet is not clean. */
  lemma CancelledStagingIsSilent()
    ensures InputsOk(OneJob, StagingCancelled) && Reported(OneJob, StagingCancelled) == {}
    ensures !Clean(OneJob, StagingCancelled) && Execute(OneJob, StagingCancelled).generation == 0
  {
    hide DeployJob, JobNeedsRollout, Refresh, ConfOk, AllGood;
    var s, x := OneJob, StagingCancelled;
    FreshStaged();
    assert InputsOk(s, x);
    RefreshCancelled(s.jobs, x.deployable, x);
    assert "j" in x.deployable && x.staging["j"].Cancelled?;
    assert RefreshJobs(s.jobs, x.deployable, x).failed == {};
    var r := RunJobs(s, x);
    assert r.entered == {} && r.outcomes == map[];
    assert r.entered * x.kvFails == {};
    assert "j" !in r.outcomes;
  }

  /** With nothing deployable, a run whose reconciliation failed reports it, is clean and raises the generation. */
  lemma NothingDeployableIsClean(s: State, x: Inputs)
    requires InputsOk(s, x) && x.deployable == [] && !x.reconciled && x.prepared && x.committed
    ensures ReconcileFailed in Reported(s, x)
    ensures Clean(s, x) && Execute(s, x).generation == s.generation + 1
  {
    CleanExactly(s, x);
    NothingRefreshed(s.jobs, x);
    assert Reports(s, x, ReconcileFailed);
  }

  const NoJobs: State := State(map[], 0, map[])

  /** A run over an empty catalog. */
  const NothingToDo: Inputs := Inputs(
    [], false, true, map[], false, false, true, map[], map[], {}, {}, {}, true, false, true, true)

  /** Such a run exists: an empty catalog, nothing to deploy, and a failed reconciliation. */
  lemma ReconcileFailureCountsAsClean()
    ensures var x := NothingToDo.(reconciled := false);
            InputsOk(NoJobs, x) && ReconcileFailed in Reported(NoJobs, x) && Clean(NoJobs, x)
            && Execute(NoJobs, x) == State(map[], 1, map[])
  {
    var x := NothingToDo.(reconciled := false);
    NothingDeployableIsClean(NoJobs, x);
  }

  /** What a run offers one job. */
  function AttemptOf(x: Inputs, j: string): Attempt
    requires j in x.staging && j in x.conf && j in x.world
  {
    Attempt(x.staging[j].staged, x.conf[j], x.force, x.world[j])
  }

  /** A clean run gives each deployable job the rows of its own successful deploy. */
  lemma CleanRunsJob(s: State, x: Inputs, j: string)
    requires InputsOk(s, x) && Clean(s, x) && j in x.deployable
    ensures AttemptOk(s.jobs[j], AttemptOf(x, j)) && RunOnce(s.jobs[j], AttemptOf(x, j)).ok
    ensures RunJobs(s, x).jobs[j] == RunOnce(s.jobs[j], AttemptOf(x, j)).rows
  {
    hide DeployJobs, RefreshJobs, DeployJob, Refresh, ConfOk, JobNeedsRollout, Distinct;
    CleanExactly(s, x);
    var staged := RefreshJobs(s.jobs, x.deployable, x);
    RefreshCancelled(s.jobs, x.deployable, x);
    forall k | k in x.deployable
      ensures staged.jobs[k] == Refresh(s.jobs[k], x.staging[k].staged) && k !in staged.failed
    {
      RefreshOne(s.jobs, x.deployable, x, k);
    }
    var start := Progress(staged.jobs, FailedOutcomes(staged.failed), {});
    LoopSucceeds(start, x.deployable, x, staged.failed);
    AttemptFits(s.jobs[j], AttemptOf(x, j));
  }

  /** A clean run leaves no deployable job in need of rollout. */
  lemma CleanLeavesNothing(s: State, x: Inputs, j: string)
    requires InputsOk(s, x) && Clean(s, x) && j in x.deployable
    ensures !JobNeedsRollout(RunJobs(s, x).jobs[j])
  {
    hide RunJobs, Clean, DeployJob, Refresh, ConfOk, JobNeedsRollout, Distinct;
    CleanRunsJob(s, x, j);
    var attempt := AttemptOf(x, j);
    RefreshReady(s.jobs[j], attempt);
    SuccessPromotesAll(Refresh(s.jobs[j], attempt.staged), attempt.conf, x.force, attempt.world);
  }

  lemma AttemptFits(rows: Rows, a: Attempt)
    requires ConfOk(rows, a.conf) && forall w :: w in rows && !rows[w].removed ==> w in a.staged
    ensures AttemptOk(rows, a)
  {
  }

  // ---- Generations ----

  /** No worker claims a generation the catalog does not have. */
  ghost predicate Aligned(s: State) {
    forall w :: w in s.workerJson ==> s.workerJson[w] <= s.generation
  }

  /** A run keeps workers behind the catalog unless its commit fails after worker.json went out. */
  lemma RunAligned(s: State, x: Inputs)
    requires InputsOk(s, x) && Aligned(s)
    ensures Aligned(Execute(s, x)) <==> !(x.prepared && !x.committed && Clean(s, x) && x.synced != {})
  {
    hide Clean, RunJobs, InputsOk;
    if x.prepared && !x.committed && Clean(s, x) && x.synced != {} {
      var w :| w in x.synced;
      assert Execute(s, x).workerJson[w] == s.generation + 1;
    }
  }

  /** Such a run: nothing to deploy, one worker synced, and the commit fails. */
  lemma CommitFailureMisaligns()
    ensures var x := NothingToDo.(workers := {"w"}, synced := {"w"}, committed := false);
            InputsOk(NoJobs, x) && Aligned(NoJobs) && Execute(NoJobs, x) == State(map[], 0, map["w" := 1])
  {
    var x := NothingToDo.(workers := {"w"}, synced := {"w"}, committed := false);
    CleanExactly(NoJobs, x);
    assert Execute(NoJobs, x).workerJson == map["w" := 1];
  }

  ghost predicate RunsOk(s: State, runs: seq<Inputs>)
    decreases |runs|
  {
    runs != [] ==> InputsOk(s, runs[0]) && runs[0].committed && RunsOk(Execute(s, runs[0]), runs[1..])
  }

  ghost function ExecuteAll(s: State, runs: seq<Inputs>): State
    requires RunsOk(s, runs)
    decreases |runs|
  {
    if runs == [] then s else ExecuteAll(Execute(s, runs[0]), runs[1..])
  }

  /** Runs that went ahead and were clean. */
  ghost function CleanRuns(s: State, runs: seq<Inputs>): nat
    requires RunsOk(s, runs)
    decreases |runs|
  {
    if runs == [] then 0
    else (if runs[0].prepared && Clean(s, runs[0]) then 1 else 0) + CleanRuns(Execute(s, runs[0]), runs[1..])
  }

  /** Over any sequence of committed runs, the generation counts the clean ones, and no worker's
      generation ever exceeds the catalog's. */
  lemma {:induction false} GenerationSafety(s: State, runs: seq<Inputs>)
    requires RunsOk(s, runs) && Aligned(s)
    ensures ExecuteAll(s, runs).generation == s.generation + CleanRuns(s, runs)
    ensures Aligned(ExecuteAll(s, runs))
    decreases |runs|
  {
    hide Clean, RunJobs, InputsOk;
    if runs != [] {
      RunAligned(s, runs[0]);
      GenerationSafety(Execute(s, runs[0]), runs[1..]);
    }
  }
}
