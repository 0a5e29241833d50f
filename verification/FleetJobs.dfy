/** What a deploy run does to each of its jobs, exactly: how far staging gets, whose turn comes in the job loop, and
    what a failed job means for those after it (deploy/execute.go). */
module FleetJobs {
  import opened Prelude
  import opened Catalog
  import opened Rollout
  import opened RolloutFacts
  import opened Fleet

  // ---- Staging ----

  /** Staging gets to the i-th job: none before it was cancelled. */
  ghost predicate StagingReaches(todo: seq<string>, x: Inputs, i: nat)
    requires i <= |todo| && forall k :: k in todo ==> k in x.staging
  {
    forall k :: 0 <= k < i ==> !x.staging[todo[k]].Cancelled?
  }

  /** A job's rows when staging is over. */
  ghost function StagedRows(jobs: map<string, Rows>, todo: seq<string>, x: Inputs, i: nat): Rows
    requires i < |todo| && forall k :: k in todo ==> k in jobs && k in x.staging
  {
    if StagingReaches(todo, x, i) then Refresh(jobs[todo[i]], x.staging[todo[i]].staged) else jobs[todo[i]]
  }

  lemma {:induction false} StagingExactly(jobs: map<string, Rows>, todo: seq<string>, x: Inputs, i: nat)
    requires Distinct(todo) && forall k :: k in todo ==> k in jobs && k in x.staging
    requires i < |todo|
    ensures var r := RefreshJobs(jobs, todo, x);
            && r.jobs[todo[i]] == StagedRows(jobs, todo, x, i)
            && (todo[i] in r.failed <==> StagingReaches(todo, x, i) && x.staging[todo[i]].Broken?)
    decreases |todo|
  {
    hide Refresh;
    var k := todo[0];
    var next := jobs[k := Refresh(jobs[k], x.staging[k].staged)];
    TailDistinct(todo);
    if i == 0 {
      RefreshOne(next, todo[1..], x, k);
    } else {
      assert todo[i] == todo[1..][i - 1] && todo[i] != k;
      ReachesTail(todo, x, i);
      StagingExactly(next, todo[1..], x, i - 1);
    }
  }

  lemma ReachesTail(todo: seq<string>, x: Inputs, i: nat)
    requires 1 <= i <= |todo| && forall k :: k in todo ==> k in x.staging
    ensures StagingReaches(todo, x, i) <==>
            !x.staging[todo[0]].Cancelled? && StagingReaches(todo[1..], x, i - 1)
  {
    forall k | 0 < k < i
      ensures todo[k] == todo[1..][k - 1]
    {
    }
    if StagingReaches(todo, x, i) {
      forall k | 0 <= k < i - 1
        ensures !x.staging[todo[1..][k]].Cancelled?
      {
        assert !x.staging[todo[k + 1]].Cancelled?;
      }
    }
  }

  // ---- The loop ----

  /** The i-th job's turn comes: every job before it either failed staging or has a deploy that succeeds. */
  ghost predicate TurnComes(jobs: map<string, Rows>, todo: seq<string>, x: Inputs, failed: set<string>, i: nat)
    requires i <= |todo| && forall k :: k in todo ==> k in jobs && k in x.conf && k in x.world
  {
    forall k :: 0 <= k < i ==> todo[k] in failed || JobRun(jobs[todo[k]], x, todo[k]).ok
  }

  /** What a job's turn leaves. */
  ghost predicate TurnTaken(rows: Rows, x: Inputs, j: string, r: Progress)
    requires j in x.conf && j in x.world && j in r.jobs
  {
    var run := JobRun(rows, x, j);
    && r.jobs[j] == run.rows
    && j in r.outcomes
    && r.outcomes[j] == (if !run.ok then Failed else if x.force || JobNeedsRollout(rows) then Deployed else Skipped)
    && (j in r.entered <==> x.force || JobNeedsRollout(rows))
  }

  lemma {:induction false} LoopKeeps(p: Progress, todo: seq<string>, x: Inputs, failed: set<string>, j: string)
    requires forall k :: k in todo ==> k in p.jobs && k in x.conf && k in x.world
    requires j in p.jobs && j !in todo
    ensures var r := DeployJobs(p, todo, x, failed);
            && r.jobs[j] == p.jobs[j]
            && (j in r.outcomes <==> j in p.outcomes)
            && (j in p.outcomes ==> r.outcomes[j] == p.outcomes[j])
            && (j in r.entered <==> j in p.entered)
    decreases |todo|
  {
    hide DeployJob, JobNeedsRollout;
    if todo != [] {
      var k := todo[0];
      assert todo == [k] + todo[1..];
      if k in failed {
        LoopKeeps(p, todo[1..], x, failed, j);
      } else if !x.force && !JobNeedsRollout(p.jobs[k]) {
        LoopKeeps(p.(outcomes := p.outcomes[k := Skipped]), todo[1..], x, failed, j);
      } else {
        var run := DeployJob(p.jobs[k], x.conf[k], x.force, x.world[k]);
        if run.ok {
          var next := Progress(p.jobs[k := run.rows], p.outcomes[k := Deployed], p.entered + {k});
          LoopKeeps(next, todo[1..], x, failed, j);
        }
      }
    }
  }

  /** Progress after one more job of the list. */
  function Turned(p: Progress, k: string, x: Inputs, failed: set<string>): (r: Progress)
    requires k in p.jobs && k in x.conf && k in x.world
    ensures r.jobs.Keys == p.jobs.Keys
  {
    if k in failed then p
    else if !x.force && !JobNeedsRollout(p.jobs[k]) then p.(outcomes := p.outcomes[k := Skipped])
    else
      var run := DeployJob(p.jobs[k], x.conf[k], x.force, x.world[k]);
      Progress(p.jobs[k := run.rows], p.outcomes[k := if run.ok then Deployed else Failed], p.entered + {k})
  }

  lemma LoopStep(p: Progress, todo: seq<string>, x: Inputs, failed: set<string>)
    requires todo != [] && forall k :: k in todo ==> k in p.jobs && k in x.conf && k in x.world
    ensures var next := Turned(p, todo[0], x, failed);
            DeployJobs(p, todo, x, failed) ==
            if todo[0] in failed || JobRun(p.jobs[todo[0]], x, todo[0]).ok then DeployJobs(next, todo[1..], x, failed)
            else next
  {
    hide DeployJob, JobNeedsRollout;
    if !x.force && !JobNeedsRollout(p.jobs[todo[0]]) {
      IdleJob(p.jobs[todo[0]], x, todo[0]);
    }
  }

  lemma TurnedFacts(p: Progress, k: string, x: Inputs, failed: set<string>)
    requires k in p.jobs && k in x.conf && k in x.world
    ensures var next := Turned(p, k, x, failed);
            && (forall j :: j in p.jobs && j != k ==> next.jobs[j] == p.jobs[j])
            && (forall j :: j != k ==> (j in next.outcomes <==> j in p.outcomes))
            && (forall j :: j != k ==> (j in next.entered <==> j in p.entered))
            && (forall j :: j in p.outcomes && j != k ==> next.outcomes[j] == p.outcomes[j])
            && (k in failed ==> next == p)
            && (k !in failed && k !in p.entered ==> TurnTaken(p.jobs[k], x, k, next))
  {
    hide DeployJob, JobNeedsRollout;
    if !x.force && !JobNeedsRollout(p.jobs[k]) {
      IdleJob(p.jobs[k], x, k);
    }
  }

  lemma {:induction false} LoopExactly(p: Progress, todo: seq<string>, x: Inputs, failed: set<string>, i: nat)
    requires Distinct(todo) && forall k :: k in todo ==> k in p.jobs && k in x.conf && k in x.world
    requires i < |todo| && todo[i] !in p.entered && (todo[i] in p.outcomes ==> todo[i] in failed)
    ensures var r, j := DeployJobs(p, todo, x, failed), todo[i];
            if j !in failed && TurnComes(p.jobs, todo, x, failed, i) then TurnTaken(p.jobs[j], x, j, r)
            else
              && r.jobs[j] == p.jobs[j] && j !in r.entered
              && (j in r.outcomes <==> j in p.outcomes)
              && (j in p.outcomes ==> r.outcomes[j] == p.outcomes[j])
    decreases |todo|
  {
    hide DeployJobs, Turned, JobRun, JobNeedsRollout, Distinct;
    var k, rest := todo[0], todo[1..];
    TailDistinct(todo);
    LoopStep(p, todo, x, failed);
    TurnedFacts(p, k, x, failed);
    var next := Turned(p, k, x, failed);
    if i == 0 {
      LoopKeeps(next, rest, x, failed, k);
    } else {
      assert todo[i] == rest[i - 1];
      assert rest[i - 1] in rest;
      TurnTail(p.jobs, next.jobs, todo, x, failed, i);
      if k in failed || JobRun(p.jobs[k], x, k).ok {
        LoopExactly(next, rest, x, failed, i - 1);
      }
    }
  }

  lemma TurnTail(jobs: map<string, Rows>, next: map<string, Rows>, todo: seq<string>, x: Inputs, failed: set<string>,
                 i: nat)
    requires 1 <= i <= |todo| && forall k :: k in todo ==> k in jobs && k in next && k in x.conf && k in x.world
    requires forall k :: k in todo[1..] ==> next[k] == jobs[k]
    ensures TurnComes(jobs, todo, x, failed, i) <==>
            (todo[0] in failed || JobRun(jobs[todo[0]], x, todo[0]).ok) && TurnComes(next, todo[1..], x, failed, i - 1)
  {
    hide JobRun;
    var rest := todo[1..];
    assert forall k :: 0 < k < i ==> todo[k] == rest[k - 1] && rest[k - 1] in rest;
    if TurnComes(jobs, todo, x, failed, i) {
      forall k | 0 <= k < i - 1
        ensures rest[k] in failed || JobRun(next[rest[k]], x, rest[k]).ok
      {
        assert todo[k + 1] == rest[k];
      }
    }
  }

  // ---- A run ----

  /** The run gets to the job loop. */
  ghost predicate LoopBegins(s: State, x: Inputs)
    requires InputsOk(s, x)
  {
    StagingReaches(x.deployable, x, |x.deployable|) && !x.preHooksAbort && x.reconciled
  }

  /** The i-th deployable job is deployed or skipped: the loop begins, its staging is complete, and every job before it
      that was staged has a deploy that succeeds. */
  ghost predicate GetsTurn(s: State, x: Inputs, i: nat)
    requires InputsOk(s, x) && i < |x.deployable|
  {
    && LoopBegins(s, x) && x.staging[x.deployable[i]].Complete?
    && forall k :: 0 <= k < i && x.staging[x.deployable[k]].Complete? ==> Succeeds(s, x, x.deployable[k])
  }

  ghost predicate Succeeds(s: State, x: Inputs, j: string)
    requires InputsOk(s, x) && j in x.deployable
  {
    JobRun(Refresh(s.jobs[j], x.staging[j].staged), x, j).ok
  }

  /** Every job of every run, exactly. A job whose turn comes has the rows of its own deploy and the outcome of it; any
      other keeps the rows that staging left, was not entered, and has an outcome only if its own staging failed.
      Cancelling ends staging for the jobs after it; a failed staging does not. */
  lemma RunExactly(s: State, x: Inputs, i: nat)
    requires InputsOk(s, x) && i < |x.deployable|
    ensures var r, j := RunJobs(s, x), x.deployable[i];
            var staged := Refresh(s.jobs[j], x.staging[j].staged);
            if GetsTurn(s, x, i) then TurnTaken(staged, x, j, r)
            else
              && r.jobs[j] == (if StagingReaches(x.deployable, x, i) then staged else s.jobs[j])
              && j !in r.entered
              && (j in r.outcomes <==> StagingReaches(x.deployable, x, i) && x.staging[j].Broken?)
              && (j in r.outcomes ==> r.outcomes[j] == Failed)
  {
    hide DeployJobs, RefreshJobs, Refresh, ConfOk, Distinct, DeployJob, JobNeedsRollout;
    var todo := x.deployable;
    var staging := RefreshJobs(s.jobs, todo, x);
    RefreshCancelled(s.jobs, todo, x);
    assert staging.cancelled <==> !StagingReaches(todo, x, |todo|);
    forall k | 0 <= k < |todo|
      ensures staging.jobs[todo[k]] == StagedRows(s.jobs, todo, x, k)
      ensures todo[k] in staging.failed <==> StagingReaches(todo, x, k) && x.staging[todo[k]].Broken?
    {
      StagingExactly(s.jobs, todo, x, k);
    }
    if LoopBegins(s, x) {
      var start := Progress(staging.jobs, FailedOutcomes(staging.failed), {});
      LoopExactly(start, todo, x, staging.failed, i);
      assert TurnComes(staging.jobs, todo, x, staging.failed, i) <==>
          forall k :: 0 <= k < i && x.staging[todo[k]].Complete? ==> Succeeds(s, x, todo[k]);
    }
  }

  /** A failed job ends the loop: every deployable job after it is staged, and nothing else happens to it. */
  lemma FailureEndsLoop(s: State, x: Inputs, i: nat, k: nat)
    requires InputsOk(s, x) && i < k < |x.deployable|
    requires GetsTurn(s, x, i) && !Succeeds(s, x, x.deployable[i])
    ensures var r, j := RunJobs(s, x), x.deployable[k];
            && x.deployable[i] in r.outcomes && r.outcomes[x.deployable[i]] == Failed
            && r.jobs[j] == Refresh(s.jobs[j], x.staging[j].staged)
            && j !in r.entered
            && (j in r.outcomes <==> x.staging[j].Broken?)
  {
    hide RunJobs, Refresh, ConfOk, Distinct, JobRun;
    RunExactly(s, x, i);
    RunExactly(s, x, k);
  }
}
