/** Rolling safety: how far a run can be at any moment, and what a failure leaves behind. */
module RolloutPacing {
  import opened Prelude
  import opened Catalog
  import opened Batches
  import opened RolloutPolicy
  import opened Rollout
  import opened RolloutFacts
  import opened DeployTheorems

  // ---- At most one batch between action and gate ----

  /** Workers acted on whose gate has not passed yet, after one more event. */
  ghost function Open(open: set<string>, e: Event): set<string> {
    match e.kind
    case Acting => open + Elements(e.batch)
    case Passing => open - Elements(e.batch)
    case _ => open
  }

  ghost function InFlight(open: set<string>, log: seq<Event>): set<string>
    decreases |log|
  {
    if log == [] then open else InFlight(Open(open, log[0]), log[1..])
  }

  /** Whole batches, each acted on, promoted and passed before the next; `limit` bounds their size by action. */
  ghost predicate Complete(log: seq<Event>, limit: Action -> int)
    decreases |log|
  {
    log == [] ||
    (|log| >= 4
     && log[..4] == PassedLog(log[0].action, log[0].batch)
     && |log[0].batch| <= limit(log[0].action)
     && Complete(log[4..], limit))
  }

  /** Whole batches, and then possibly one that stopped. */
  ghost predicate Paced(log: seq<Event>, limit: Action -> int)
    decreases |log|
  {
    log == [] ||
    (&& |log[0].batch| <= limit(log[0].action)
     && (|| log == [Event(Acting, log[0].action, log[0].batch)]
         || log == HookedLog(log[0].action, log[0].batch)
         || log == FailedLog(log[0].action, log[0].batch)
         || (|log| >= 4 && log[..4] == PassedLog(log[0].action, log[0].batch) && Paced(log[4..], limit))))
  }

  lemma {:induction false} CompleteIsPaced(log: seq<Event>, limit: Action -> int)
    requires Complete(log, limit)
    ensures Paced(log, limit)
    decreases |log|
  {
    if log != [] {
      CompleteIsPaced(log[4..], limit);
    }
  }

  lemma {:induction false} ChainPaced(a: seq<Event>, b: seq<Event>, limit: Action -> int)
    requires Complete(a, limit)
    ensures Paced(b, limit) ==> Paced(a + b, limit)
    ensures Complete(b, limit) ==> Complete(a + b, limit)
    decreases |a|
  {
    if a == [] {
      assert a + b == b;
    } else {
      ChainPaced(a[4..], b, limit);
      assert (a + b)[..4] == a[..4];
      assert (a + b)[4..] == a[4..] + b;
      assert (a + b)[0] == a[0];
    }
  }

  lemma {:induction false} RunBatchesPaced(rows: Rows, action: Action, batches: seq<seq<string>>, force: bool,
                                           world: World, t: nat, limit: Action -> int)
    requires forall k :: 0 <= k < |batches| ==> |batches[k]| <= limit(action)
    ensures var r := RunBatches(rows, action, batches, force, world, t);
            Paced(r.log, limit) && (r.ok ==> Complete(r.log, limit))
    decreases |batches|
  {
    if batches != [] {
      var b := batches[0];
      var promoted := PromoteRows(rows, b);
      hide PromoteRows, MarkRows;
      RunBatchesPaced(promoted, action, batches[1..], force, world, t + 1, limit);
      OneBatchPaced(action, b, limit);
      ChainPaced(PassedLog(action, b), RunBatches(promoted, action, batches[1..], force, world, t + 1).log, limit);
    }
  }

  lemma OneBatchPaced(action: Action, b: seq<string>, limit: Action -> int)
    requires |b| <= limit(action)
    ensures Complete(PassedLog(action, b), limit)
    ensures Paced(FailedLog(action, b), limit)
    ensures Paced([Event(Acting, action, b)], limit) && Paced(HookedLog(action, b), limit)
    ensures Paced([], limit) && Complete([], limit)
  {
    var log := PassedLog(action, b);
    assert log[..4] == log && log[4..] == [];
  }

  /** Batch size limits of a job, for every lifecycle action: without a limit starts go all at once, and reloads and
      restarts one at a time; the hard cap holds for all. */
  ghost function SizeLimit(c: JobConf): Action -> int {
    action =>
      var wanted := if action == Start then (if c.maxStarts >= 1 then c.maxStarts else |c.listing|)
                    else if c.maxRestarts >= 1 then c.maxRestarts
                    else 1;
      if 1 <= c.hardCap < wanted then c.hardCap else wanted
  }

  lemma PhasePaced(rows: Rows, c: JobConf, action: Action, candidates: seq<string>, limit: int, force: bool,
                   world: World, t: nat)
    requires Distinct(candidates) && Distinct(c.catalog) && Distinct(c.listing)
    requires forall w :: w in candidates ==> w in rows && Active(rows[w]) && w in c.listing
    requires limit == if action == Start then c.maxStarts else RestartLimit(c)
    ensures var r := Phase(rows, c, action, candidates, limit, force, world, t);
            Paced(r.log, SizeLimit(c)) && (r.ok ==> Complete(r.log, SizeLimit(c)))
  {
    hide RunBatches, OrderedBatches, Paced, Complete, Active, Flatten, Distinct;
    OrderedBatchesFacts(rows, c, candidates, limit);
    var bs := OrderedBatches(rows, c, candidates, limit);
    forall k | 0 <= k < |bs|
      ensures |bs[k]| <= SizeLimit(c)(action)
    {
      assert |bs[k]| <= |c.listing| by {
        BatchWithin(bs, k, c.listing);
      }
    }
    RunBatchesPaced(rows, action, bs, force, world, t, SizeLimit(c));
  }

  lemma BatchWithin(bs: seq<seq<string>>, k: nat, listing: seq<string>)
    requires k < |bs| && Distinct(Flatten(bs)) && Elements(Flatten(bs)) <= Elements(listing)
    ensures |bs[k]| <= |listing|
  {
    BatchDistinct(bs, k);
    DistinctSize(bs[k]);
    ElementsSize(listing);
    forall w | w in bs[k]
      ensures w in Elements(listing)
    {
      FlattenMember(bs, k, w);
      assert w in Elements(Flatten(bs));
    }
    SubsetSize(Elements(bs[k]), Elements(listing));
  }

  lemma {:induction false} BatchDistinct(bs: seq<seq<string>>, k: nat)
    requires k < |bs| && Distinct(Flatten(bs))
    ensures Distinct(bs[k])
  {
    DistinctParts(bs[0], Flatten(bs[1..]));
    if k > 0 {
      BatchDistinct(bs[1..], k - 1);
    }
  }

  lemma {:induction false} DistinctSize(xs: seq<string>)
    requires Distinct(xs)
    ensures |Elements(xs)| == |xs|
  {
    if xs != [] {
      DistinctSize(xs[1..]);
      assert xs[0] !in xs[1..];
      assert Elements(xs) == {xs[0]} + Elements(xs[1..]);
    }
  }

  lemma {:induction false} ElementsSize(xs: seq<string>)
    ensures |Elements(xs)| <= |xs|
  {
    if xs != [] {
      ElementsSize(xs[1..]);
      assert Elements(xs) == {xs[0]} + Elements(xs[1..]);
    }
  }

  lemma {:induction false} SubsetSize(a: set<string>, b: set<string>)
    requires a <= b
    ensures |a| <= |b|
  {
    if a != {} {
      var x :| x in a;
      SubsetSize(a - {x}, b - {x});
    }
  }

  lemma InFlightStep(open: set<string>, e: Event, rest: seq<Event>)
    ensures InFlight(open, [e] + rest) == InFlight(Open(open, e), rest)
  {
    assert ([e] + rest)[1..] == rest;
  }

  lemma InFlightHooked(action: Action, b: seq<string>, rest: seq<Event>)
    ensures InFlight({}, HookedLog(action, b) + rest) == InFlight(Elements(b), rest)
  {
    hide InFlight;
    var e1, e2 := Event(Acting, action, b), Event(Hooking, action, b);
    assert HookedLog(action, b) + rest == [e1] + ([e2] + rest);
    InFlightStep({}, e1, [e2] + rest);
    assert {} + Elements(b) == Elements(b);
    InFlightStep(Elements(b), e2, rest);
  }

  lemma InFlightPassed(action: Action, b: seq<string>, rest: seq<Event>)
    ensures InFlight({}, PassedLog(action, b) + rest) == InFlight({}, rest)
  {
    hide InFlight, HookedLog;
    var e3, e4 := Event(Promoting, action, b), Event(Passing, action, b);
    assert PassedLog(action, b) + rest == HookedLog(action, b) + ([e3] + ([e4] + rest));
    InFlightHooked(action, b, [e3] + ([e4] + rest));
    InFlightStep(Elements(b), e3, [e4] + rest);
    InFlightStep(Elements(b), e4, rest);
    assert Elements(b) - Elements(b) == {};
  }

  /** In a paced log, the workers in flight after any number of events lie in a single batch. */
  lemma {:induction false} PacedInFlight(log: seq<Event>, limit: Action -> int, n: nat)
    requires Paced(log, limit) && n <= |log|
    ensures var open := InFlight({}, log[..n]);
            open == {} ||
            exists k :: 0 <= k < n && log[k].kind == Acting && open == Elements(log[k].batch)
                        && |log[k].batch| <= limit(log[k].action)
    decreases |log|
  {
    if n == 0 {
      assert log[..n] == [];
    } else {
      var a, b := log[0].action, log[0].batch;
      if n >= 4 && log[..4] == PassedLog(a, b) {
        assert Paced(log[4..], limit);
        PacedInFlight(log[4..], limit, n - 4);
        assert log[..n] == PassedLog(a, b) + log[4..][..n - 4];
        InFlightPassed(a, b, log[4..][..n - 4]);
        var open := InFlight({}, log[..n]);
        if open != {} {
          var k :| 0 <= k < n - 4 && log[4..][k].kind == Acting && open == Elements(log[4..][k].batch)
                   && |log[4..][k].batch| <= limit(log[4..][k].action);
          assert log[k + 4] == log[4..][k];
        }
      } else {
        ShortPrefix(log, n, a, b);
      }
    }
  }

  lemma ShortPrefix(log: seq<Event>, n: nat, action: Action, b: seq<string>)
    requires 1 <= n <= |log| && (n >= 4 ==> log == FailedLog(action, b))
    requires || log == [Event(Acting, action, b)] || log == HookedLog(action, b) || log == FailedLog(action, b)
             || (|log| >= 4 && log[..4] == PassedLog(action, b))
    ensures log[0] == Event(Acting, action, b)
    ensures InFlight({}, log[..n]) == Elements(b)
  {
    var e1, e3, e4 := Event(Acting, action, b), Event(Promoting, action, b), Event(Failing, action, b);
    if |log| >= 4 && log[..4] == PassedLog(action, b) {
      assert log[0] == log[..4][0] && log[1] == log[..4][1] && log[2] == log[..4][2];
    }
    NothingInFlight(Elements(b));
    if n == 1 {
      assert {} + Elements(b) == Elements(b);
      assert log[..1] == [e1] + [];
      InFlightStep({}, e1, []);
    } else {
      var rest := if n == 2 then [] else if n == 3 then [e3] else [e3, e4];
      assert log[..n] == HookedLog(action, b) + rest;
      hide InFlight, HookedLog;
      InFlightHooked(action, b, rest);
      assert [e3] + [] == [e3] && [e3] + [e4] == [e3, e4] && [e4] + [] == [e4];
      InFlightStep(Elements(b), e3, []);
      InFlightStep(Elements(b), e3, [e4]);
      InFlightStep(Elements(b), e4, []);
    }
  }

  lemma NothingInFlight(open: set<string>)
    ensures InFlight(open, []) == open
  {
  }

  lemma UpdatePhasePaced(rows: Rows, c: JobConf, force: bool, world: World, t: nat)
    requires ConfOk(rows, c)
    ensures var r := UpdatePhase(rows, c, force, world, t);
            Paced(r.log, SizeLimit(c)) && (r.ok ==> Complete(r.log, SizeLimit(c)))
  {
    hide Phase, Acts, NeedingRestart, WorkersFor, Fate, Touched, UpdateAction, Active, Paced, Complete, SizeLimit;
    var updated := NeedingRestart(rows, c, force);
    NeedingRestartFacts(rows, c, force);
    var reloads, restarts := WorkersFor(Reload, rows, c, updated), WorkersFor(Restart, rows, c, updated);
    WorkersForFacts(Reload, rows, c, updated);
    WorkersForFacts(Restart, rows, c, updated);
    PhaseFacts(rows, c, Reload, reloads, RestartLimit(c), force, world, t);
    PhasePaced(rows, c, Reload, reloads, RestartLimit(c), force, world, t);
    var r := Phase(rows, c, Reload, reloads, RestartLimit(c), force, world, t);
    if r.ok {
      forall w | w in restarts
        ensures w in r.rows && Active(r.rows[w])
      {
        FateKeepsFlags(rows[w], w, r.log);
      }
      PhasePaced(r.rows, c, Restart, restarts, RestartLimit(c), force, world, r.t);
      ChainPaced(r.log, Phase(r.rows, c, Restart, restarts, RestartLimit(c), force, world, r.t).log, SizeLimit(c));
    }
  }

  lemma LifecyclePaced(rows: Rows, c: JobConf, force: bool, world: World)
    requires ConfOk(rows, c)
    ensures Paced(Lifecycle(rows, c, force, world).log, SizeLimit(c))
  {
    hide Phase, UpdatePhase, Paced, Complete, SizeLimit, IsNew, Active, NewWorkers;
    NewWorkersFacts(rows, c);
    var started := NewWorkers(rows, c);
    forall w | w in started
      ensures w in rows && Active(rows[w])
    {
      NewHasPlan(rows[w]);
    }
    PhasePaced(rows, c, Start, started, c.maxStarts, force, world, 0);
    var r := StartPhase(rows, c, force, world);
    if r.ok {
      UpdatePhasePaced(r.rows, c, force, world, r.t);
      ChainPaced(r.log, UpdatePhase(r.rows, c, force, world, r.t).log, SizeLimit(c));
    }
  }

  /** What the job's settings allow a batch to be: `max_concurrent_starts` for starts if that is at least one,
      `max_concurrent_restarts` for reloads and restarts, one if that is not at least one, and the bucket's hard cap
      for all of them if that is at least one. */
  predicate WithinLimits(c: JobConf, action: Action, size: nat) {
    && (action == Start && c.maxStarts >= 1 ==> size <= c.maxStarts)
    && (action != Start ==> size <= if c.maxRestarts >= 1 then c.maxRestarts else 1)
    && (c.hardCap >= 1 ==> size <= c.hardCap)
  }

  /** At every moment of every deploy, forced or not, the allocations acted on whose health gate has not
      passed lie in one batch, no larger than the job's concurrency limits allow. */
  lemma RollingSafety(rows: Rows, c: JobConf, force: bool, world: World, n: nat)
    requires ConfOk(rows, c)
    requires n <= |DeployJob(rows, c, force, world).log|
    ensures var log := DeployJob(rows, c, force, world).log;
            var open := InFlight({}, log[..n]);
            open == {} ||
            exists k :: 0 <= k < n && log[k].kind == Acting && open == Elements(log[k].batch)
                        && WithinLimits(c, log[k].action, |log[k].batch|)
  {
    hide Lifecycle, Paced, InFlight;
    LifecyclePaced(rows, c, force, world);
    var log := DeployJob(rows, c, force, world).log;
    if log == [] {
      NothingPaced(SizeLimit(c));
    }
    PacedInFlight(log, SizeLimit(c), n);
  }

  lemma NothingPaced(limit: Action -> int)
    ensures Paced([], limit)
  {
  }

  // ---- What a failure leaves ----

  /** Batches before `k` are promoted, batch `k` is as it was or marked as a whole, the others are as they were. */
  ghost predicate StoppedAt(rows: Rows, batches: seq<seq<string>>, after: Rows, k: nat)
    requires k <= |batches| && after.Keys == rows.Keys
  {
    && (forall j, w :: 0 <= j < k && w in batches[j] && w in rows ==> after[w] == Promote(rows[w]))
    && (k < |batches| ==>
          || (forall w :: w in batches[k] && w in rows ==> after[w] == rows[w])
          || (forall w :: w in batches[k] && w in rows ==> after[w] == MarkHealthFailed(Promote(rows[w]))))
    && (forall j, w :: k < j < |batches| && w in batches[j] && w in rows ==> after[w] == rows[w])
    && (forall w :: w in rows && w !in Flatten(batches) ==> after[w] == rows[w])
  }

  /** A run of batches stops somewhere, at the end exactly when it succeeds. */
  ghost predicate Stops(rows: Rows, batches: seq<seq<string>>, r: Run)
    requires r.rows.Keys == rows.Keys
  {
    exists k: nat :: k <= |batches| && (r.ok <==> k == |batches|) && StoppedAt(rows, batches, r.rows, k)
  }

  lemma StopsAt(rows: Rows, batches: seq<seq<string>>, r: Run, k: nat)
    requires r.rows.Keys == rows.Keys
    requires k <= |batches| && (r.ok <==> k == |batches|) && StoppedAt(rows, batches, r.rows, k)
    ensures Stops(rows, batches, r)
  {
  }

  lemma StoppedFirst(rows: Rows, batches: seq<seq<string>>, after: Rows)
    requires batches != [] && Distinct(Flatten(batches))
    requires after == rows || after == MarkRows(PromoteRows(rows, batches[0]), batches[0])
    ensures StoppedAt(rows, batches, after, 0)
  {
    hide Promote, MarkHealthFailed, Distinct;
    var b, rest := batches[0], batches[1..];
    DistinctParts(b, Flatten(rest));
    forall j, w | 0 < j < |batches| && w in batches[j]
      ensures w !in b
    {
      FlattenMember(rest, j - 1, w);
    }
  }

  /** On failure, batches before the failing one stay promoted, that one is unchanged or marked as a whole,
      and later ones are untouched. */
  lemma {:induction false} BatchesStop(rows: Rows, action: Action, batches: seq<seq<string>>, force: bool,
                                       world: World, t: nat)
    requires Distinct(Flatten(batches))
    ensures Stops(rows, batches, RunBatches(rows, action, batches, force, world, t))
    decreases |batches|
  {
    hide StoppedAt, PromoteRows, MarkRows, HookedLog, PassedLog, FailedLog, Distinct;
    var r := RunBatches(rows, action, batches, force, world, t);
    if batches == [] {
      NoneStopped(rows);
      StopsAt(rows, batches, r, 0);
    } else {
      var b, rest := batches[0], batches[1..];
      DistinctParts(b, Flatten(rest));
      var o := world(t);
      if (force || o.preHealth) && o.lifecycle && o.hooks && o.postHealth {
        var promoted := PromoteRows(rows, b);
        BatchesStop(promoted, action, rest, force, world, t + 1);
        var more := RunBatches(promoted, action, rest, force, world, t + 1);
        var k: nat :| k <= |rest| && (more.ok <==> k == |rest|) && StoppedAt(promoted, rest, more.rows, k);
        StopLater(rows, batches, more.rows, k);
        StopsAt(rows, batches, r, k + 1);
      } else {
        StoppedFirst(rows, batches, r.rows);
        StopsAt(rows, batches, r, 0);
      }
    }
  }

  lemma NoneStopped(rows: Rows)
    ensures StoppedAt(rows, [], rows, 0)
  {
  }

  lemma StopLater(rows: Rows, batches: seq<seq<string>>, after: Rows, k: nat)
    requires batches != [] && k < |batches| && after.Keys == rows.Keys
    requires forall w :: w in batches[0] ==> w !in Flatten(batches[1..])
    requires StoppedAt(PromoteRows(rows, batches[0]), batches[1..], after, k)
    ensures StoppedAt(rows, batches, after, k + 1)
  {
    hide Promote, MarkHealthFailed;
    var b, rest, promoted := batches[0], batches[1..], PromoteRows(rows, batches[0]);
    forall j, w | 0 <= j < |rest| && w in rest[j]
      ensures w !in b && (w in rows ==> promoted[w] == rows[w])
    {
      FlattenMember(rest, j, w);
    }
    forall j, w | 0 <= j < |batches| && w in batches[j] && w in rows
      ensures j < k + 1 ==> after[w] == Promote(rows[w])
      ensures j > k + 1 ==> after[w] == rows[w]
    {
      if j > 0 {
        assert w in rest[j - 1];
      }
    }
    if k + 1 < |batches| {
      assert batches[k + 1] == rest[k];
    }
  }

  // ---- What a failed deploy leaves ----

  /** The batches of each phase of a deploy. */
  ghost function PlannedBatches(rows: Rows, c: JobConf, force: bool, world: World, action: Action): seq<seq<string>> {
    var r := StartPhase(rows, c, force, world);
    var updated := NeedingRestart(r.rows, c, force);
    var reloads, restarts := WorkersFor(Reload, r.rows, c, updated), WorkersFor(Restart, r.rows, c, updated);
    var r1 := Phase(r.rows, c, Reload, reloads, RestartLimit(c), force, world, r.t);
    match action
    case Start => OrderedBatches(rows, c, NewWorkers(rows, c), c.maxStarts)
    case Reload => OrderedBatches(r.rows, c, reloads, RestartLimit(c))
    case Restart => OrderedBatches(r1.rows, c, restarts, RestartLimit(c))
    case _ => []
  }

  /** The rows a phase begins with: all batches of the phases before it are promoted. */
  ghost function RowsBefore(rows: Rows, c: JobConf, force: bool, world: World, action: Action): (r: Rows)
    ensures r.Keys == rows.Keys
  {
    var starts := PromoteRows(rows, Flatten(PlannedBatches(rows, c, force, world, Start)));
    var reloads := PromoteRows(starts, Flatten(PlannedBatches(rows, c, force, world, Reload)));
    if action == Start then rows else if action == Reload then starts else reloads
  }

  lemma PhaseSucceeded(rows: Rows, c: JobConf, action: Action, candidates: seq<string>, limit: int, force: bool,
                       world: World, t: nat)
    requires Distinct(candidates) && Distinct(c.catalog)
    requires forall w :: w in candidates ==> w in rows && Active(rows[w])
    ensures var r := Phase(rows, c, action, candidates, limit, force, world, t);
            var bs := OrderedBatches(rows, c, candidates, limit);
            && Stops(rows, bs, r)
            && (r.ok ==> r.rows == PromoteRows(rows, Flatten(bs)))
  {
    hide RunBatches, OrderedBatches, Flatten, Active, Touched, Promote, Distinct, StoppedAt;
    var bs := OrderedBatches(rows, c, candidates, limit);
    OrderedBatchesFacts(rows, c, candidates, limit);
    BatchesStop(rows, action, bs, force, world, t);
    PhaseFacts(rows, c, action, candidates, limit, force, world, t);
    var r := Phase(rows, c, action, candidates, limit, force, world, t);
    if r.ok {
      forall w | w in rows
        ensures r.rows[w] == PromoteRows(rows, Flatten(bs))[w]
      {
        assert w in Flatten(bs) <==> w in Elements(Flatten(bs));
      }
    }
  }

  /** The deploy's rows are as if it had stopped at this batch of this phase. */
  ghost predicate StopsInPhase(rows: Rows, c: JobConf, force: bool, world: World, action: Action, after: Rows, k: nat)
    requires after.Keys == rows.Keys
  {
    var bs := PlannedBatches(rows, c, force, world, action);
    k < |bs| && StoppedAt(RowsBefore(rows, c, force, world, action), bs, after, k)
  }

  /** A failed deploy, forced or not, stops at one batch of one phase: every batch of the earlier phases and every
      earlier batch of this one is promoted, this batch is unchanged or marked as a whole, and every other row,
      those of later batches and phases included, is as the earlier phases left it. */
  lemma FailedDeployStops(rows: Rows, c: JobConf, force: bool, world: World)
    requires ConfOk(rows, c) && !DeployJob(rows, c, force, world).ok
    ensures exists action, k :: action in {Start, Reload, Restart}
                             && StopsInPhase(rows, c, force, world, action, DeployJob(rows, c, force, world).rows, k)
  {
    hide Phase, OrderedBatches, NewWorkers, NeedingRestart, WorkersFor, Active, IsNew, Flatten, StoppedAt, PromoteRows,
         Fate, Touched, JobNeedsRollout, PromoteAll;
    var after := DeployJob(rows, c, force, world).rows;
    NewWorkersFacts(rows, c);
    var started := NewWorkers(rows, c);
    forall w | w in started
      ensures Active(rows[w])
    {
      NewHasPlan(rows[w]);
    }
    PhaseSucceeded(rows, c, Start, started, c.maxStarts, force, world, 0);
    PhaseFacts(rows, c, Start, started, c.maxStarts, force, world, 0);
    var r := StartPhase(rows, c, force, world);
    if !r.ok {
      StoppedHere(rows, c, force, world, Start, r);
    } else {
      var updated := NeedingRestart(r.rows, c, force);
      NeedingRestartFacts(r.rows, c, force);
      var reloads, restarts := WorkersFor(Reload, r.rows, c, updated), WorkersFor(Restart, r.rows, c, updated);
      WorkersForFacts(Reload, r.rows, c, updated);
      WorkersForFacts(Restart, r.rows, c, updated);
      PhaseSucceeded(r.rows, c, Reload, reloads, RestartLimit(c), force, world, r.t);
      PhaseFacts(r.rows, c, Reload, reloads, RestartLimit(c), force, world, r.t);
      var r1 := Phase(r.rows, c, Reload, reloads, RestartLimit(c), force, world, r.t);
      if !r1.ok {
        StoppedHere(rows, c, force, world, Reload, r1);
      } else {
        forall w | w in restarts
          ensures w in r1.rows && Active(r1.rows[w])
        {
          FateKeepsFlags(r.rows[w], w, r1.log);
        }
        PhaseSucceeded(r1.rows, c, Restart, restarts, RestartLimit(c), force, world, r1.t);
        var r2 := Phase(r1.rows, c, Restart, restarts, RestartLimit(c), force, world, r1.t);
        StoppedHere(rows, c, force, world, Restart, r2);
      }
    }
  }

  lemma StoppedHere(rows: Rows, c: JobConf, force: bool, world: World, action: Action, r: Run)
    requires action in {Start, Reload, Restart} && !r.ok && r.rows.Keys == rows.Keys
    requires Stops(RowsBefore(rows, c, force, world, action), PlannedBatches(rows, c, force, world, action), r)
    ensures exists k :: StopsInPhase(rows, c, force, world, action, r.rows, k)
  {
    hide StoppedAt, RowsBefore, PlannedBatches;
    var before, bs := RowsBefore(rows, c, force, world, action), PlannedBatches(rows, c, force, world, action);
    var k: nat :| k <= |bs| && (r.ok <==> k == |bs|) && StoppedAt(before, bs, r.rows, k);
    assert StopsInPhase(rows, c, force, world, action, r.rows, k);
  }
}
