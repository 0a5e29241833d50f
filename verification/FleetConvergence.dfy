/** Whole deploy runs that fail, in any number and at any point, before one that is clean (deploy/execute.go). */
module FleetConvergence {
  import opened Prelude
  import opened Manifest
  import opened Catalog
  import opened Rollout
  import opened RolloutFacts
  import opened DeployTheorems
  import opened DryRun
  import opened Histories
  import opened Fleet

  // ---- What one run does to one job ----

  /** The loop over staging leaves the job's rows or refreshes them. */
  lemma {:induction false} RefreshEither(jobs: map<string, Rows>, todo: seq<string>, x: Inputs, j: string)
    requires forall k :: k in todo ==> k in jobs && k in x.staging
    requires Distinct(todo) && j in jobs && j in x.staging
    ensures RefreshJobs(jobs, todo, x).jobs[j] in {jobs[j], Refresh(jobs[j], x.staging[j].staged)}
    decreases |todo|
  {
    hide Refresh;
    if todo != [] {
      var k := todo[0];
      var next := jobs[k := Refresh(jobs[k], x.staging[k].staged)];
      TailDistinct(todo);
      if k == j {
        RefreshOne(next, todo[1..], x, j);
      } else {
        RefreshEither(next, todo[1..], x, j);
      }
    }
  }

  /** The job loop leaves the job's rows or deploys it, and only if its staging did not fail. */
  lemma {:induction false} LoopEither(p: Progress, todo: seq<string>, x: Inputs, failed: set<string>, j: string)
    requires forall k :: k in todo ==> k in p.jobs && k in x.conf && k in x.world
    requires Distinct(todo) && j in p.jobs
    ensures var after := DeployJobs(p, todo, x, failed).jobs[j];
            after == p.jobs[j] || (j in todo && j !in failed && after == JobRun(p.jobs[j], x, j).rows)
    decreases |todo|
  {
    hide DeployJob, JobNeedsRollout, Distinct;
    if todo != [] {
      var k, rest := todo[0], todo[1..];
      TailDistinct(todo);
      assert todo == [k] + rest;
      if k in failed {
        LoopEither(p, rest, x, failed, j);
      } else if !x.force && !JobNeedsRollout(p.jobs[k]) {
        LoopEither(p.(outcomes := p.outcomes[k := Skipped]), rest, x, failed, j);
      } else {
        var run := JobRun(p.jobs[k], x, k);
        if run.ok {
          var next := Progress(p.jobs[k := run.rows], p.outcomes[k := Deployed], p.entered + {k});
          LoopEither(next, rest, x, failed, j);
        }
      }
    }
  }

  /** A run leaves a job's rows, stages them in part or in full, or deploys them once they are staged in full. */
  lemma RunEither(s: State, x: Inputs, j: string)
    requires InputsOk(s, x) && j in x.deployable
    ensures var after := RunJobs(s, x).jobs[j];
            || after in {s.jobs[j], Refresh(s.jobs[j], x.staging[j].staged)}
            || (x.staging[j].Complete? && after == RunOnce(s.jobs[j], AttemptOf(x, j)).rows)
  {
    hide DeployJobs, RefreshJobs, DeployJob, Refresh, ConfOk, JobNeedsRollout;
    var staged := RefreshJobs(s.jobs, x.deployable, x);
    RefreshEither(s.jobs, x.deployable, x, j);
    RefreshOne(s.jobs, x.deployable, x, j);
    LoopEither(Progress(staged.jobs, FailedOutcomes(staged.failed), {}), x.deployable, x, staged.failed, j);
  }

  lemma OthersUntouched(s: State, x: Inputs, j: string)
    requires InputsOk(s, x) && j in s.jobs && j !in x.deployable
    ensures RunJobs(s, x).jobs[j] == s.jobs[j]
  {
    hide DeployJobs, RefreshJobs, ConfOk, Distinct;
    var staged := RefreshJobs(s.jobs, x.deployable, x);
    RefreshOne(s.jobs, x.deployable, x, j);
    LoopFrame(Progress(staged.jobs, FailedOutcomes(staged.failed), {}), x.deployable, x, staged.failed, j);
  }

  // ---- One content ----

  /** What is staged, in part or in full, is this content. */
  predicate Agrees(staged: map<string, FileManifest>, content: map<string, FileManifest>) {
    forall w :: w in staged && w in content ==> staged[w] == content[w]
  }

  predicate Offers(x: Inputs, j: string, content: map<string, FileManifest>) {
    j in x.deployable ==> j in x.staging && Agrees(x.staging[j].staged, content)
  }

  lemma RefreshTargets(rows: Rows, staged: map<string, FileManifest>, content: map<string, FileManifest>)
    requires rows.Keys <= content.Keys && Agrees(staged, content)
    ensures SameTargets(rows, rows, content) && SameTargets(Refresh(rows, staged), rows, content)
  {
    hide Aggregate, UpdatePlan, SameTarget;
    forall w | w in rows
      ensures SameTarget(rows[w], rows[w], Aggregate(content[w]), content[w])
      ensures SameTarget(Refresh(rows, staged)[w], rows[w], Aggregate(content[w]), content[w])
    {
      SameAsItself(rows[w], Aggregate(content[w]), content[w]);
      StagedTarget(rows[w], Aggregate(content[w]), content[w]);
    }
  }

  /** Complete staging of this content is this content. */
  lemma StagedInFull(rows: Rows, t: Attempt, content: map<string, FileManifest>)
    requires rows.Keys <= content.Keys && Agrees(t.staged, content)
    requires forall w :: w in rows && !rows[w].removed ==> w in t.staged
    ensures Refresh(rows, t.staged) == Refresh(rows, content)
    ensures RunOnce(rows, t) == RunOnce(rows, t.(staged := content))
    ensures AttemptOk(rows, t) ==> AttemptOk(rows, t.(staged := content))
  {
    hide Aggregate, UpdatePlan, DeployJob, ConfOk;
    assert Refresh(rows, t.staged) == Refresh(rows, content);
  }

  lemma RunKeepsTargets(s: State, x: Inputs, j: string, content: map<string, FileManifest>)
    requires InputsOk(s, x) && j in s.jobs && s.jobs[j].Keys <= content.Keys && Offers(x, j, content)
    ensures SameTargets(RunJobs(s, x).jobs[j], s.jobs[j], content)
  {
    hide RunJobs, Refresh, RunOnce, SameTargets, Agrees, ConfOk, Distinct;
    var rows := s.jobs[j];
    NothingStaged(content);
    RefreshTargets(rows, map[], content);
    if j !in x.deployable {
      OthersUntouched(s, x, j);
    } else {
      RunEither(s, x, j);
      RefreshTargets(rows, x.staging[j].staged, content);
      if x.staging[j].Complete? {
        StagedInFull(rows, AttemptOf(x, j), content);
        DeployTargets(rows, rows, AttemptOf(x, j).(staged := content));
      }
    }
  }

  lemma NothingStaged(content: map<string, FileManifest>)
    ensures Agrees(map[], content)
  {
  }

  lemma SameTargetsChain(a: Rows, b: Rows, c: Rows, content: map<string, FileManifest>)
    requires SameTargets(a, b, content) && SameTargets(b, c, content)
    ensures SameTargets(a, c, content)
  {
    hide TargetFiles, Aggregate;
  }

  /** No sequence of runs that offer one content moves a row away from its target. */
  lemma {:induction false} RunsKeepTargets(s: State, runs: seq<Inputs>, j: string, content: map<string, FileManifest>)
    requires RunsOk(s, runs) && j in s.jobs && s.jobs[j].Keys <= content.Keys
    requires forall x :: x in runs ==> Offers(x, j, content)
    ensures j in ExecuteAll(s, runs).jobs && SameTargets(ExecuteAll(s, runs).jobs[j], s.jobs[j], content)
    decreases |runs|
  {
    hide SameTargets, InputsOk, Clean, RunJobs, Offers;
    assert SameTargets(s.jobs[j], s.jobs[j], content) by {
      NothingStaged(content);
      RefreshTargets(s.jobs[j], map[], content);
    }
    if runs != [] {
      var next := Execute(s, runs[0]);
      assert runs[0] in runs;
      RunKeepsTargets(s, runs[0], j, content);
      assert SameTargets(next.jobs[j], s.jobs[j], content);
      TargetKeys(next.jobs[j], s.jobs[j], content);
      RunsKeepTargets(next, runs[1..], j, content);
      SameTargetsChain(ExecuteAll(s, runs).jobs[j], next.jobs[j], s.jobs[j], content);
    }
  }

  lemma TargetKeys(a: Rows, b: Rows, content: map<string, FileManifest>)
    requires SameTargets(a, b, content)
    ensures a.Keys == b.Keys <= content.Keys
  {
  }

  // ---- Convergence ----

  /** A run that goes through, deploying this job from this content. */
  ghost predicate EndsClean(s: State, x: Inputs, j: string, content: map<string, FileManifest>) {
    && InputsOk(s, x) && x.prepared && x.committed && Clean(s, x)
    && j in x.deployable && Agrees(x.staging[j].staged, content)
  }

  lemma CleanEnd(s: State, x: Inputs, j: string, content: map<string, FileManifest>)
    requires EndsClean(s, x, j, content) && s.jobs[j].Keys <= content.Keys
    ensures var t := AttemptOf(x, j).(staged := content);
            AttemptOk(s.jobs[j], t) && RunOnce(s.jobs[j], t).ok && Execute(s, x).jobs[j] == RunOnce(s.jobs[j], t).rows
  {
    hide RunJobs, Clean, Refresh, RunOnce, Agrees, ConfOk, Distinct;
    CleanRunsJob(s, x, j);
    StagedInFull(s.jobs[j], AttemptOf(x, j), content);
  }

  /** Any sequence of committed runs that offer a job one content, in part or in full, whatever fails in them and
      whatever they do to other jobs, and then a clean run: every active allocation of the job runs what one clean run
      from the start would have left it running; and when both roll out, all its rows that are not removed are the
      same. */
  lemma ConvergenceOverRuns(s: State, runs: seq<Inputs>, last: Inputs, once: Inputs, j: string,
                            content: map<string, FileManifest>)
    requires RunsOk(s, runs) && j in s.jobs && s.jobs[j].Keys <= content.Keys
    requires forall x :: x in runs ==> Offers(x, j, content)
    requires EndsClean(ExecuteAll(s, runs), last, j, content) && EndsClean(s, once, j, content)
    ensures var before, long := ExecuteAll(s, runs), Execute(ExecuteAll(s, runs), last).jobs[j];
            var short := Execute(s, once).jobs[j];
            && long.Keys == short.Keys == s.jobs[j].Keys
            && (forall w :: w in long && Active(long[w]) ==>
                  Running(long[w]) == Running(short[w]) && Running(long[w]).0 == Some(Aggregate(content[w])))
            && ((last.force || JobNeedsRollout(Refresh(before.jobs[j], content)))
                && (once.force || JobNeedsRollout(Refresh(s.jobs[j], content))) ==>
                  forall w :: w in long && !long[w].removed ==> long[w] == short[w])
  {
    hide RunsOk, RunOnce, Refresh, JobNeedsRollout, Running, AttemptOk, Aggregate, SameTarget, Offers, Execute, Active;
    var before := ExecuteAll(s, runs);
    RunsKeepTargets(s, runs, j, content);
    CleanEnd(before, last, j, content);
    CleanEnd(s, once, j, content);
    var t, o := AttemptOf(last, j).(staged := content), AttemptOf(once, j).(staged := content);
    SameEnd(before.jobs[j], s.jobs[j], t, o);
    forall w | w in before.jobs[j]
      ensures RunOnce(before.jobs[j], t).rows[w].removed == before.jobs[j][w].removed
      ensures Active(RunOnce(before.jobs[j], t).rows[w]) == Active(before.jobs[j][w])
      ensures Active(before.jobs[j][w]) ==>
                Running(RunOnce(before.jobs[j], t).rows[w]).0 == Some(Aggregate(content[w]))
    {
      DeployFlags(before.jobs[j], t, w);
      if Active(before.jobs[j][w]) {
        SuccessRuns(before.jobs[j], t, w);
      }
    }
  }

  lemma DeployFlags(rows: Rows, t: Attempt, w: string)
    requires ConfOk(rows, t.conf) && w in rows && w in t.staged
    ensures RunOnce(rows, t).rows[w].removed == rows[w].removed
    ensures Active(RunOnce(rows, t).rows[w]) == Active(rows[w])
  {
    hide RunOnce, TargetFiles, Aggregate;
    DeployTarget(rows, t, w);
  }
}
