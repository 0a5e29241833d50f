/** A deploy walks one list of batches, fixed in advance by the rows and the settings, and stops at the first that
    does not pass (deploy/job_deploy.go, deploy/allocations.go, deploy/rollout.go). */
module DeployAgenda {
  import opened Prelude
  import opened Catalog
  import opened Batches
  import opened RolloutOrder
  import opened RolloutPolicy
  import opened Rollout
  import opened RolloutFacts
  import opened RolloutPacing
  import opened DeployTheorems

  datatype Entry = Entry(action: Action, batch: seq<string>)

  function Tagged(action: Action, batches: seq<seq<string>>): seq<Entry> {
    seq(|batches|, k requires 0 <= k < |batches| => Entry(action, batches[k]))
  }

  // ---- What the outcomes decide ----

  predicate Passes(force: bool, o: Outcome) {
    (force || o.preHealth) && o.lifecycle && o.hooks && o.postHealth
  }

  /** What happens to a batch that is reached. Force skips the gate before it, and only that one. */
  predicate Happens(kind: EventKind, force: bool, o: Outcome) {
    && (force || o.preHealth)
    && match kind
       case Acting => true
       case Hooking => o.lifecycle
       case Promoting => o.lifecycle && o.hooks
       case Passing => o.lifecycle && o.hooks && o.postHealth
       case Failing => o.lifecycle && o.hooks && !o.postHealth
  }

  ghost predicate AllPass(force: bool, world: World, from: nat, to: nat) {
    forall i: nat :: from <= i < to ==> Passes(force, world(i))
  }

  /** With the list's first batch meeting outcome `t`, the event happens to the batch that meets outcome `i`, all
      batches before it having passed. */
  ghost predicate OccursAt(g: seq<Entry>, force: bool, world: World, t: nat, e: Event, i: nat) {
    && t <= i < t + |g| && g[i - t] == Entry(e.action, e.batch)
    && AllPass(force, world, t, i) && Happens(e.kind, force, world(i))
  }

  ghost predicate Occurs(g: seq<Entry>, force: bool, world: World, t: nat, e: Event) {
    exists i: nat :: OccursAt(g, force, world, t, e, i)
  }

  /** The run is a walk over this list from outcome `t` on. */
  ghost predicate Walks(g: seq<Entry>, force: bool, world: World, t: nat, r: Run) {
    && (r.ok <==> AllPass(force, world, t, t + |g|))
    && (r.ok ==> r.t == t + |g|)
    && forall e :: e in r.log <==> Occurs(g, force, world, t, e)
  }

  // ---- Walks compose ----

  lemma OccursLonger(g1: seq<Entry>, g2: seq<Entry>, force: bool, world: World, t: nat, e: Event, i: nat)
    ensures OccursAt(g1 + g2, force, world, t, e, i) <==>
            || OccursAt(g1, force, world, t, e, i)
            || (AllPass(force, world, t, t + |g1|) && OccursAt(g2, force, world, t + |g1|, e, i))
  {
    hide Passes, Happens;
    if t + |g1| <= i < t + |g1 + g2| {
      assert (g1 + g2)[i - t] == g2[i - (t + |g1|)];
    }
  }

  lemma ChainWalks(g1: seq<Entry>, g2: seq<Entry>, force: bool, world: World, t: nat, r1: Run, r2: Run)
    requires Walks(g1, force, world, t, r1) && r1.ok && Walks(g2, force, world, t + |g1|, r2)
    ensures Walks(g1 + g2, force, world, t, Chain(r1, r2))
  {
    hide Occurs, Passes;
    forall e
      ensures e in r1.log + r2.log <==> Occurs(g1 + g2, force, world, t, e)
    {
      OccursConcat(g1, g2, force, world, t, e);
    }
  }

  lemma OccursConcat(g1: seq<Entry>, g2: seq<Entry>, force: bool, world: World, t: nat, e: Event)
    requires AllPass(force, world, t, t + |g1|)
    ensures Occurs(g1 + g2, force, world, t, e) <==>
            Occurs(g1, force, world, t, e) || Occurs(g2, force, world, t + |g1|, e)
  {
    hide OccursAt, AllPass;
    forall i: nat
      ensures OccursAt(g1 + g2, force, world, t, e, i) <==>
              OccursAt(g1, force, world, t, e, i) || OccursAt(g2, force, world, t + |g1|, e, i)
    {
      OccursLonger(g1, g2, force, world, t, e, i);
    }
    if i: nat :| OccursAt(g1, force, world, t, e, i) {
      assert OccursAt(g1 + g2, force, world, t, e, i);
    }
    var later := t + |g1|;
    if i: nat :| OccursAt(g2, force, world, later, e, i) {
      assert OccursAt(g1 + g2, force, world, t, e, i);
    }
  }

  /** A walk that stopped early is one over any longer list. */
  lemma StoppedWalks(g1: seq<Entry>, g2: seq<Entry>, force: bool, world: World, t: nat, r: Run)
    requires Walks(g1, force, world, t, r) && !r.ok
    ensures Walks(g1 + g2, force, world, t, r)
  {
    hide OccursAt, Passes;
    forall e
      ensures e in r.log <==> Occurs(g1 + g2, force, world, t, e)
    {
      forall i: nat
        ensures OccursAt(g1 + g2, force, world, t, e, i) <==> OccursAt(g1, force, world, t, e, i)
      {
        OccursLonger(g1, g2, force, world, t, e, i);
      }
    }
  }

  // ---- One phase ----

  lemma OnlyFirst(action: Action, b: seq<string>, force: bool, world: World, t: nat, e: Event)
    ensures Occurs([Entry(action, b)], force, world, t, e) <==>
            e.action == action && e.batch == b && Happens(e.kind, force, world(t))
    ensures AllPass(force, world, t, t + 1) <==> Passes(force, world(t))
  {
    var g := [Entry(action, b)];
    hide Happens, Passes;
    assert forall i: nat :: OccursAt(g, force, world, t, e, i) ==> i == t;
    if e.action == action && e.batch == b && Happens(e.kind, force, world(t)) {
      assert OccursAt(g, force, world, t, e, t);
    }
  }

  /** A run over the first batch alone. */
  function FirstRun(rows: Rows, action: Action, b: seq<string>, force: bool, world: World, t: nat): Run {
    RunBatches(rows, action, [b], force, world, t)
  }

  lemma FirstWalks(rows: Rows, action: Action, b: seq<string>, force: bool, world: World, t: nat)
    ensures Walks([Entry(action, b)], force, world, t, FirstRun(rows, action, b, force, world, t))
  {
    hide Occurs, AllPass, Happens, FirstRun;
    var r := FirstRun(rows, action, b, force, world, t);
    FirstEvents(rows, action, b, force, world, t);
    OnlyFirst(action, b, force, world, t, Event(Acting, action, b));
    forall e
      ensures e in r.log <==> Occurs([Entry(action, b)], force, world, t, e)
    {
      OnlyFirst(action, b, force, world, t, e);
    }
  }

  lemma FirstEvents(rows: Rows, action: Action, b: seq<string>, force: bool, world: World, t: nat)
    ensures var r := FirstRun(rows, action, b, force, world, t);
            && (r.ok <==> Passes(force, world(t)))
            && r.t == t + 1
            && forall e :: e in r.log <==> e.action == action && e.batch == b && Happens(e.kind, force, world(t))
  {
    hide PromoteRows, MarkRows, HookedLog, PassedLog, FailedLog;
    assert [b][1..] == [];
    NoBatchesRun(PromoteRows(rows, b), action, force, world, t + 1);
    assert PassedLog(action, b) + [] == PassedLog(action, b);
    forall e: Event
      ensures e in FirstRun(rows, action, b, force, world, t).log <==>
              e.action == action && e.batch == b && Happens(e.kind, force, world(t))
    {
      LogMembers(action, b, e);
    }
  }

  lemma LogMembers(action: Action, b: seq<string>, e: Event)
    ensures var mine := e.action == action && e.batch == b;
            && (e in [Event(Acting, action, b)] <==> mine && e.kind == Acting)
            && (e in HookedLog(action, b) <==> mine && e.kind in {Acting, Hooking})
            && (e in PassedLog(action, b) <==> mine && e.kind != Failing)
            && (e in FailedLog(action, b) <==> mine && e.kind != Passing)
  {
    assert e == Event(e.kind, e.action, e.batch);
  }

  lemma FirstThenRest(rows: Rows, action: Action, batches: seq<seq<string>>, force: bool, world: World, t: nat)
    requires batches != []
    ensures var first := FirstRun(rows, action, batches[0], force, world, t);
            var r := RunBatches(rows, action, batches, force, world, t);
            if first.ok then
              first.t == t + 1 && r == Chain(first, RunBatches(first.rows, action, batches[1..], force, world, t + 1))
            else r == first
  {
    hide PromoteRows, MarkRows, PassedLog, FailedLog, HookedLog;
    assert [batches[0]][1..] == [];
    NoBatchesRun(PromoteRows(rows, batches[0]), action, force, world, t + 1);
    assert PassedLog(action, batches[0]) + [] == PassedLog(action, batches[0]);
  }

  lemma NoBatchesRun(rows: Rows, action: Action, force: bool, world: World, t: nat)
    ensures RunBatches(rows, action, [], force, world, t) == Run(rows, true, [], t)
  {
  }

  lemma {:induction false} BatchesWalk(rows: Rows, action: Action, batches: seq<seq<string>>, force: bool,
                                       world: World, t: nat)
    ensures Walks(Tagged(action, batches), force, world, t, RunBatches(rows, action, batches, force, world, t))
    decreases |batches|
  {
    hide RunBatches, Walks, FirstRun;
    if batches == [] {
      NoBatchesRun(rows, action, force, world, t);
      NothingWalked(rows, force, world, t);
      assert Tagged(action, batches) == [];
    } else {
      var b, rest := batches[0], batches[1..];
      assert Tagged(action, batches) == [Entry(action, b)] + Tagged(action, rest);
      FirstWalks(rows, action, b, force, world, t);
      FirstThenRest(rows, action, batches, force, world, t);
      var first := FirstRun(rows, action, b, force, world, t);
      if first.ok {
        BatchesWalk(first.rows, action, rest, force, world, t + 1);
        ChainWalks([Entry(action, b)], Tagged(action, rest), force, world, t, first,
                   RunBatches(first.rows, action, rest, force, world, t + 1));
      } else {
        StoppedWalks([Entry(action, b)], Tagged(action, rest), force, world, t, first);
      }
    }
  }

  lemma NothingWalked(rows: Rows, force: bool, world: World, t: nat)
    ensures Walks([], force, world, t, Run(rows, true, [], t))
  {
    assert forall e, i: nat :: !OccursAt([], force, world, t, e, i);
  }

  // ---- The whole deploy ----

  function StartBatches(rows: Rows, c: JobConf): seq<seq<string>> {
    OrderedBatches(rows, c, NewWorkers(rows, c), c.maxStarts)
  }

  /** The batches of the update phase, given the rows it begins with. */
  function UpdateBatches(rows: Rows, c: JobConf, force: bool): seq<Entry> {
    var updated := NeedingRestart(rows, c, force);
    var reloads := OrderedBatches(rows, c, WorkersFor(Reload, rows, c, updated), RestartLimit(c));
    var reloaded := PromoteRows(rows, Flatten(reloads));
    var restarts := OrderedBatches(reloaded, c, WorkersFor(Restart, rows, c, updated), RestartLimit(c));
    Tagged(Reload, reloads) + Tagged(Restart, restarts)
  }

  /** Everything a deploy does if nothing fails, decided without asking the world. */
  function Agenda(rows: Rows, c: JobConf, force: bool): seq<Entry> {
    Tagged(Start, StartBatches(rows, c))
    + UpdateBatches(PromoteRows(rows, Flatten(StartBatches(rows, c))), c, force)
  }

  lemma UpdateWalks(rows: Rows, c: JobConf, force: bool, world: World, t: nat)
    requires ConfOk(rows, c)
    ensures Walks(UpdateBatches(rows, c, force), force, world, t, UpdatePhase(rows, c, force, world, t))
  {
    hide RunBatches, OrderedBatches, NeedingRestart, WorkersFor, Walks, Active, Flatten, PromoteRows, Stops,
         UpdateAction;
    var updated := NeedingRestart(rows, c, force);
    NeedingRestartFacts(rows, c, force);
    WorkersForFacts(Reload, rows, c, updated);
    var ws := WorkersFor(Reload, rows, c, updated);
    var reloads := OrderedBatches(rows, c, ws, RestartLimit(c));
    PhaseSucceeded(rows, c, Reload, ws, RestartLimit(c), force, world, t);
    BatchesWalk(rows, Reload, reloads, force, world, t);
    var r := RunBatches(rows, Reload, reloads, force, world, t);
    var reloaded := PromoteRows(rows, Flatten(reloads));
    var restarts := OrderedBatches(reloaded, c, WorkersFor(Restart, rows, c, updated), RestartLimit(c));
    if r.ok {
      WalkedAll(Tagged(Reload, reloads), force, world, t, r);
      BatchesWalk(reloaded, Restart, restarts, force, world, r.t);
      ChainWalks(Tagged(Reload, reloads), Tagged(Restart, restarts), force, world, t, r,
                 RunBatches(reloaded, Restart, restarts, force, world, r.t));
    } else {
      StoppedWalks(Tagged(Reload, reloads), Tagged(Restart, restarts), force, world, t, r);
    }
  }

  lemma WalkedAll(g: seq<Entry>, force: bool, world: World, t: nat, r: Run)
    requires Walks(g, force, world, t, r) && r.ok
    ensures r.t == t + |g|
  {
  }

  lemma LifecycleWalks(rows: Rows, c: JobConf, force: bool, world: World)
    requires ConfOk(rows, c)
    ensures Walks(Agenda(rows, c, force), force, world, 0, Lifecycle(rows, c, force, world))
  {
    hide RunBatches, OrderedBatches, NewWorkers, Walks, Active, IsNew, Flatten, PromoteRows, Stops, UpdatePhase,
         UpdateBatches;
    NewWorkersFacts(rows, c);
    var started := NewWorkers(rows, c);
    forall w | w in started
      ensures Active(rows[w])
    {
      NewHasPlan(rows[w]);
    }
    var starts := StartBatches(rows, c);
    PhaseSucceeded(rows, c, Start, started, c.maxStarts, force, world, 0);
    BatchesWalk(rows, Start, starts, force, world, 0);
    var r := RunBatches(rows, Start, starts, force, world, 0);
    var after := PromoteRows(rows, Flatten(starts));
    if r.ok {
      WalkedAll(Tagged(Start, starts), force, world, 0, r);
      UpdateWalks(after, c, force, world, r.t);
      ChainWalks(Tagged(Start, starts), UpdateBatches(after, c, force), force, world, 0, r,
                 UpdatePhase(after, c, force, world, r.t));
    } else {
      StoppedWalks(Tagged(Start, starts), UpdateBatches(after, c, force), force, world, 0, r);
    }
  }

  /** Every deploy that has something to do, forced or not, failing or not: it succeeds exactly when every batch of
      its agenda passes; an event is in its log exactly when it happens to a batch of the agenda before which all
      passed; and the rows it leaves are what those events make of them. */
  lemma DeployWalksAgenda(rows: Rows, c: JobConf, force: bool, world: World)
    requires ConfOk(rows, c) && (force || JobNeedsRollout(rows))
    ensures var r, g := DeployJob(rows, c, force, world), Agenda(rows, c, force);
            && (r.ok <==> forall n: nat :: n < |g| ==> Passes(force, world(n)))
            && (forall e :: e in r.log <==> Occurs(g, force, world, 0, e))
            && (forall w :: w in rows ==>
                  r.rows[w] == if r.ok && !rows[w].removed then Promote(rows[w]) else Fate(rows[w], w, r.log))
  {
    hide Lifecycle, Agenda, Passes, Occurs, Fate, Promote, TouchesActive, JobNeedsRollout;
    LifecycleWalks(rows, c, force, world);
    LifecycleTracks(rows, c, force, world);
    var r := Lifecycle(rows, c, force, world);
    if r.ok {
      SuccessPromotesAll(rows, c, force, world);
      forall w | w in rows && rows[w].removed
        ensures r.rows[w].removed
      {
        FateKeepsFlags(rows[w], w, r.log);
      }
    }
  }

  // ---- What is on the agenda ----

  /** Workers as the update phase finds them: new ones have been started and promoted. */
  function Started(a: Allocation): Allocation {
    if IsNew(a) then Promote(a) else a
  }

  /** In the update phase the allocation gets this action. */
  predicate Gets(a: Allocation, c: JobConf, force: bool, action: Action) {
    Active(a) && !IsNew(a) && (force || NeedsWork(a)) && UpdateAction(a, c) == action
  }

  /** The workers whose rows ask for the action. */
  ghost function Asking(rows: Rows, c: JobConf, force: bool, action: Action): set<string> {
    set w | w in rows && if action == Start then IsNew(rows[w]) else Gets(Started(rows[w]), c, force, action)
  }

  /** The largest size that the total, the limit and the cap allow; a limit below one is none. */
  predicate IsBatchSize(size: nat, total: nat, limit: int, cap: int) {
    && size <= total && (limit >= 1 ==> size <= limit) && (cap >= 1 ==> size <= cap)
    && (size == total || (limit >= 1 && size == limit) || (cap >= 1 && size == cap))
  }

  /** Batches of these workers in the order that the stored list or the catalog gives them, every one but the last
      as large as allowed. */
  ghost predicate Arranged(batches: seq<seq<string>>, ws: set<string>, c: JobConf, limit: int) {
    && (exists candidates :: Distinct(candidates) && Elements(candidates) == ws
                          && Flatten(batches) == ResolveOrder(candidates, c.catalog, c.storedOrder))
    && exists size :: IsBatchSize(size, |Flatten(batches)|, limit, c.hardCap)
                   && forall k :: 0 <= k < |batches| ==>
                        1 <= |batches[k]| <= size && (k < |batches| - 1 ==> |batches[k]| == size)
  }

  lemma BatchesArranged(rows: Rows, c: JobConf, candidates: seq<string>, limit: int)
    requires Distinct(candidates) && Distinct(c.catalog)
    requires forall w :: w in candidates ==> w in rows && Active(rows[w])
    ensures Arranged(OrderedBatches(rows, c, candidates, limit), Elements(candidates), c, limit)
  {
    hide Split, Flatten, ResolveOrder, Active;
    var keep := w => w in rows && Active(rows[w]);
    FilterAll(candidates, keep);
    var ordered := ResolveOrder(candidates, c.catalog, c.storedOrder);
    var size := EffectiveBatchSize(limit, |ordered|, c.hardCap);
    var bs := OrderedBatches(rows, c, candidates, limit);
    if size > 0 {
      SplitFlatten(ordered, size);
      forall k | 0 <= k < |bs|
        ensures 1 <= |bs[k]| <= size && (k < |bs| - 1 ==> |bs[k]| == size)
      {
        SplitSize(ordered, size, k);
      }
    } else {
      NothingFlat();
      assert ordered == [];
    }
    assert IsBatchSize(size, |Flatten(bs)|, limit, c.hardCap);
  }

  /** The agenda is the starts, then the reloads, then the restarts: for each exactly the workers whose rows ask for
      it, in rollout order, in batches as large as the settings allow. Starts without a limit go all at once,
      reloads and restarts one at a time. */
  lemma AgendaContents(rows: Rows, c: JobConf, force: bool)
    requires ConfOk(rows, c)
    ensures exists starts, reloads, restarts ::
              && Agenda(rows, c, force) == Tagged(Start, starts) + Tagged(Reload, reloads) + Tagged(Restart, restarts)
              && Arranged(starts, Asking(rows, c, force, Start), c, c.maxStarts)
              && Arranged(reloads, Asking(rows, c, force, Reload), c, if c.maxRestarts >= 1 then c.maxRestarts else 1)
              && Arranged(restarts, Asking(rows, c, force, Restart), c, if c.maxRestarts >= 1 then c.maxRestarts else 1)
  {
    hide OrderedBatches, NeedingRestart, WorkersFor, NewWorkers, Arranged, Active, IsNew, Flatten, NeedsWork,
         UpdateAction, Promote;
    NewWorkersFacts(rows, c);
    var created := NewWorkers(rows, c);
    forall w | w in created
      ensures Active(rows[w])
    {
      NewHasPlan(rows[w]);
    }
    BatchesArranged(rows, c, created, c.maxStarts);
    var starts := StartBatches(rows, c);
    var after := PromoteRows(rows, Flatten(starts));
    StartedRow(rows, c);
    var updated := NeedingRestart(after, c, force);
    NeedingRestartFacts(after, c, force);
    var ws1, ws2 := WorkersFor(Reload, after, c, updated), WorkersFor(Restart, after, c, updated);
    WorkersForFacts(Reload, after, c, updated);
    WorkersForFacts(Restart, after, c, updated);
    var limit := RestartLimit(c);
    var reloads := OrderedBatches(after, c, ws1, limit);
    BatchesArranged(after, c, ws1, limit);
    var reloaded := PromoteRows(after, Flatten(reloads));
    forall w | w in ws2
      ensures Active(reloaded[w])
    {
      PromotedActive(after[w]);
    }
    BatchesArranged(reloaded, c, ws2, limit);
    var restarts := OrderedBatches(reloaded, c, ws2, limit);
    assert Elements(created) == Asking(rows, c, force, Start);
    assert Elements(ws1) == Asking(rows, c, force, Reload);
    assert Elements(ws2) == Asking(rows, c, force, Restart);
    Regroup(Tagged(Start, starts), Tagged(Reload, reloads), Tagged(Restart, restarts));
  }

  lemma PromotedActive(a: Allocation)
    ensures Active(Promote(a)) == Active(a)
  {
  }

  /** The rows once every start passed. */
  lemma StartedRow(rows: Rows, c: JobConf)
    requires ConfOk(rows, c)
    ensures PromoteRows(rows, Flatten(StartBatches(rows, c))) == map w | w in rows :: Started(rows[w])
  {
    hide OrderedBatches, NewWorkers, Active, IsNew, Flatten, Promote;
    NewWorkersFacts(rows, c);
    var created := NewWorkers(rows, c);
    forall w | w in created
      ensures Active(rows[w])
    {
      NewHasPlan(rows[w]);
    }
    OrderedBatchesFacts(rows, c, created, c.maxStarts);
    var flat := Flatten(StartBatches(rows, c));
    assert forall w :: w in flat <==> w in Elements(flat);
    assert forall w :: w in created <==> w in Elements(created);
  }
}
