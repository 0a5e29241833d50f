/** What a run does to each row, read off its event log. */
module RolloutFacts {
  import opened Prelude
  import opened Catalog
  import opened Batches
  import opened RolloutOrder
  import opened RolloutPolicy
  import opened Rollout

  /** Workers of the batches with an event of this kind. */
  ghost function Touched(kind: EventKind, log: seq<Event>): set<string> {
    if log == [] then {} else TouchedBy(kind, log[0]) + Touched(kind, log[1..])
  }

  ghost function TouchedBy(kind: EventKind, e: Event): set<string> {
    if e.kind == kind then set w | w in e.batch else {}
  }

  lemma {:induction false} TouchedConcat(kind: EventKind, a: seq<Event>, b: seq<Event>)
    ensures Touched(kind, a + b) == Touched(kind, a) + Touched(kind, b)
  {
    if a == [] {
      assert a + b == b;
    } else {
      TouchedConcat(kind, a[1..], b);
      assert (a + b)[1..] == a[1..] + b;
    }
  }

  /** The row a logged run leaves: promoted if its gate passed, marked if it failed, otherwise as it was. */
  ghost function Fate(a: Allocation, w: string, log: seq<Event>): Allocation {
    if w in Touched(Failing, log) then MarkHealthFailed(Promote(a))
    else if w in Touched(Passing, log) then Promote(a)
    else a
  }

  ghost predicate Tracks(rows: Rows, r: Run) {
    && r.rows.Keys == rows.Keys
    && (forall w :: w in rows ==> r.rows[w] == Fate(rows[w], w, r.log))
    && (r.ok ==> Touched(Failing, r.log) == {})
  }

  lemma ChainTracks(rows: Rows, r1: Run, r2: Run)
    requires Tracks(rows, r1) && r1.ok && Tracks(r1.rows, r2)
    ensures Tracks(rows, Chain(r1, r2))
  {
    hide Touched, Promote, MarkHealthFailed;
    TouchedConcat(Failing, r1.log, r2.log);
    TouchedConcat(Passing, r1.log, r2.log);
    forall w | w in rows
      ensures r2.rows[w] == Fate(rows[w], w, r1.log + r2.log)
    {
      PromoteIdempotent(rows[w]);
    }
  }

  lemma TouchedTwo(kind: EventKind, e1: Event, e2: Event)
    ensures Touched(kind, [e1, e2]) == TouchedBy(kind, e1) + TouchedBy(kind, e2)
  {
    hide TouchedBy;
    assert [e1, e2][1..] == [e2];
    assert [e2][1..] == [];
    assert Touched(kind, [e2]) == TouchedBy(kind, e2);
  }

  lemma LogTouches(kind: EventKind, action: Action, b: seq<string>)
    ensures var ws := set w | w in b;
            && Touched(kind, []) == {}
            && Touched(kind, [Event(Acting, action, b)]) == (if kind == Acting then ws else {})
            && Touched(kind, HookedLog(action, b)) == (if kind == Acting || kind == Hooking then ws else {})
            && Touched(kind, PassedLog(action, b)) == (if kind == Failing then {} else ws)
            && Touched(kind, FailedLog(action, b)) == (if kind == Passing then {} else ws)
  {
    var e1, e2 := Event(Acting, action, b), Event(Promoting, action, b);
    assert [e1][1..] == [];
    TouchedTwo(kind, e1, Event(Hooking, action, b));
    TouchedTwo(kind, e2, Event(Passing, action, b));
    TouchedTwo(kind, e2, Event(Failing, action, b));
    TouchedConcat(kind, HookedLog(action, b), [e2, Event(Passing, action, b)]);
    TouchedConcat(kind, HookedLog(action, b), [e2, Event(Failing, action, b)]);
  }

  lemma BatchTracks(rows: Rows, action: Action, b: seq<string>, t: nat)
    ensures Tracks(rows, Run(PromoteRows(rows, b), true, PassedLog(action, b), t))
    ensures Tracks(rows, Run(MarkRows(PromoteRows(rows, b), b), false, FailedLog(action, b), t))
    ensures Tracks(rows, Run(rows, false, [Event(Acting, action, b)], t))
    ensures Tracks(rows, Run(rows, false, HookedLog(action, b), t))
    ensures Tracks(rows, Run(rows, false, [], t))
    ensures Tracks(rows, Run(rows, true, [], t))
  {
    hide Touched, Promote, MarkHealthFailed, HookedLog, PassedLog, FailedLog;
    LogTouches(Passing, action, b);
    LogTouches(Failing, action, b);
  }

  /** Rolling safety of one sequence of batches: earlier batches promoted, the failing one untouched or
      marked as a whole, later ones untouched. */
  lemma {:induction false} RunBatchesTracks(rows: Rows, action: Action, batches: seq<seq<string>>, force: bool,
                                            world: World, t: nat)
    ensures Tracks(rows, RunBatches(rows, action, batches, force, world, t))
    decreases |batches|
  {
    hide Tracks, PromoteRows, MarkRows, HookedLog, PassedLog, FailedLog;
    var b := if batches == [] then [] else batches[0];
    BatchTracks(rows, action, b, t);
    BatchTracks(rows, action, b, t + 1);
    if batches != [] {
      var promoted := PromoteRows(rows, b);
      RunBatchesTracks(promoted, action, batches[1..], force, world, t + 1);
      ChainTracks(rows, Run(promoted, true, PassedLog(action, b), t + 1),
                  RunBatches(promoted, action, batches[1..], force, world, t + 1));
    }
  }

  // ---- Which workers a phase acts on ----

  /** A phase over the workers `ws`: it acts only on them, every gate follows an action, no worker both
      passes and fails, success means all passed, and failure leaves some worker without a passed gate. */
  ghost predicate Acts(ws: set<string>, r: Run) {
    && Touched(Acting, r.log) <= ws
    && Touched(Passing, r.log) + Touched(Failing, r.log) <= Touched(Acting, r.log)
    && Touched(Passing, r.log) !! Touched(Failing, r.log)
    && (r.ok ==> Touched(Passing, r.log) == ws)
    && (!r.ok ==> exists w :: w in ws && w !in Touched(Passing, r.log))
  }

  lemma ChainActs(ws1: set<string>, ws2: set<string>, r1: Run, r2: Run)
    requires Acts(ws1, r1) && r1.ok && Acts(ws2, r2) && ws1 !! ws2
    requires Touched(Failing, r1.log) == {}
    ensures Acts(ws1 + ws2, Chain(r1, r2))
  {
    hide Touched;
    forall k: EventKind
      ensures Touched(k, r1.log + r2.log) == Touched(k, r1.log) + Touched(k, r2.log)
    {
      TouchedConcat(k, r1.log, r2.log);
    }
  }

  lemma FailedActsWiden(ws: set<string>, more: set<string>, r: Run)
    requires Acts(ws, r) && !r.ok
    ensures Acts(ws + more, r)
  {
    hide Touched;
  }

  lemma BatchActs(rows: Rows, action: Action, b: seq<string>, t: nat)
    requires b != []
    ensures Acts(Elements(b), Run(rows, true, PassedLog(action, b), t))
    ensures Acts(Elements(b), Run(rows, false, FailedLog(action, b), t))
    ensures Acts(Elements(b), Run(rows, false, [Event(Acting, action, b)], t))
    ensures Acts(Elements(b), Run(rows, false, HookedLog(action, b), t))
    ensures Acts(Elements(b), Run(rows, false, [], t))
    ensures Acts({}, Run(rows, true, [], t))
    ensures Touched(Failing, PassedLog(action, b)) == {}
  {
    hide Touched, HookedLog, PassedLog, FailedLog;
    LogTouches(Acting, action, b);
    LogTouches(Passing, action, b);
    LogTouches(Failing, action, b);
    assert b[0] in Elements(b);
  }

  lemma {:induction false} RunBatchesActs(rows: Rows, action: Action, batches: seq<seq<string>>, force: bool,
                                          world: World, t: nat)
    requires Distinct(Flatten(batches))
    requires forall k :: 0 <= k < |batches| ==> batches[k] != []
    ensures Acts(Elements(Flatten(batches)), RunBatches(rows, action, batches, force, world, t))
    decreases |batches|
  {
    hide Touched, Acts, HookedLog, PassedLog, FailedLog, PromoteRows, MarkRows;
    if batches == [] {
      BatchActs(rows, action, [""], t);
      assert Elements<string>([]) == {};
    } else {
      var b, rest := batches[0], Flatten(batches[1..]);
      DistinctParts(b, rest);
      assert Elements(Flatten(batches)) == Elements(b) + Elements(rest);
      var promoted := PromoteRows(rows, b);
      BatchActs(rows, action, b, t + 1);
      BatchActs(promoted, action, b, t + 1);
      BatchActs(MarkRows(promoted, b), action, b, t + 1);
      var r := RunBatches(rows, action, batches, force, world, t);
      var o := world(t);
      if (force || o.preHealth) && o.lifecycle && o.hooks && o.postHealth {
        RunBatchesActs(promoted, action, batches[1..], force, world, t + 1);
        ChainActs(Elements(b), Elements(rest), Run(promoted, true, PassedLog(action, b), t + 1),
                  RunBatches(promoted, action, batches[1..], force, world, t + 1));
      } else {
        FailedActsWiden(Elements(b), Elements(rest), r);
      }
    }
  }

  /** The table listing and the catalog order name each worker once, and the listing covers the rows. */
  ghost predicate ConfOk(rows: Rows, c: JobConf) {
    && Distinct(c.listing)
    && Distinct(c.catalog)
    && (forall w :: w in c.listing <==> w in rows)
  }

  lemma OrderedBatchesFacts(rows: Rows, c: JobConf, candidates: seq<string>, limit: int)
    requires Distinct(candidates) && Distinct(c.catalog)
    requires forall w :: w in candidates ==> w in rows && Active(rows[w])
    ensures var bs := OrderedBatches(rows, c, candidates, limit);
            && Distinct(Flatten(bs))
            && Elements(Flatten(bs)) == Elements(candidates)
            && forall k :: 0 <= k < |bs| ==>
                 && bs[k] != []
                 && (limit >= 1 ==> |bs[k]| <= limit)
                 && (c.hardCap >= 1 ==> |bs[k]| <= c.hardCap)
  {
    var active := Filter(candidates, w => w in rows && Active(rows[w]));
    FilterMember(candidates, w => w in rows && Active(rows[w]));
    FilterDistinct(candidates, w => w in rows && Active(rows[w]));
    var ordered := ResolveOrder(active, c.catalog, c.storedOrder);
    ResolveOrderPermutes(active, c.catalog, c.storedOrder);
    var size := EffectiveBatchSize(limit, |ordered|, c.hardCap);
    var bs := OrderedBatches(rows, c, candidates, limit);
    hide Split, Flatten, ResolveOrder, Filter, Active;
    if size > 0 {
      SplitFlatten(ordered, size);
      forall k | 0 <= k < |bs|
        ensures 1 <= |bs[k]| <= size
      {
        SplitSize(ordered, size, k);
      }
      assert Elements(Flatten(bs)) == Elements(candidates);
    } else {
      assert ordered == [];
      NothingFlat();
      assert forall w :: w !in candidates;
      assert Elements(candidates) == {};
    }
  }

  lemma NothingFlat()
    ensures Flatten<string>([]) == []
  {
  }

  lemma PhaseFacts(rows: Rows, c: JobConf, action: Action, candidates: seq<string>, limit: int, force: bool,
                   world: World, t: nat)
    requires Distinct(candidates) && Distinct(c.catalog)
    requires forall w :: w in candidates ==> w in rows && Active(rows[w])
    ensures var r := Phase(rows, c, action, candidates, limit, force, world, t);
            Tracks(rows, r) && Acts(Elements(candidates), r)
  {
    hide RunBatches, OrderedBatches, Acts, Tracks, Flatten, Active;
    OrderedBatchesFacts(rows, c, candidates, limit);
    var bs := OrderedBatches(rows, c, candidates, limit);
    RunBatchesTracks(rows, action, bs, force, world, t);
    RunBatchesActs(rows, action, bs, force, world, t);
  }

  lemma NewWorkersFacts(rows: Rows, c: JobConf)
    requires ConfOk(rows, c)
    ensures Distinct(NewWorkers(rows, c))
    ensures forall w :: w in NewWorkers(rows, c) <==> w in rows && IsNew(rows[w])
  {
    hide IsNew;
    FilterMember(c.listing, w => w in rows && IsNew(rows[w]));
    FilterDistinct(c.listing, w => w in rows && IsNew(rows[w]));
  }

  /** Candidates for reload or restart: everything active under force, otherwise what needs work and is not new. */
  lemma NeedingRestartFacts(rows: Rows, c: JobConf, force: bool)
    requires ConfOk(rows, c)
    ensures Distinct(NeedingRestart(rows, c, force))
    ensures forall w :: w in NeedingRestart(rows, c, force) <==>
                        w in rows && Active(rows[w]) && !IsNew(rows[w]) && (force || NeedsWork(rows[w]))
  {
    hide Filter, Unique, IsNew, ContentPending, VersionPending, Active;
    NewWorkersFacts(rows, c);
    var started := NewWorkers(rows, c);
    if force {
      FilterMember(c.listing, w => w in rows && Active(rows[w]));
      FilterDistinct(c.listing, w => w in rows && Active(rows[w]));
      var active := ActiveWorkers(rows, c);
      FilterMember(active, x => x !in started);
      FilterDistinct(active, x => x !in started);
    } else {
      FilterMember(c.listing, w => w in rows && Active(rows[w]) && ContentPending(rows[w]));
      FilterMember(c.listing, w => w in rows && Active(rows[w]) && VersionPending(rows[w]));
      var all := UpdatedWorkers(rows, c) + VersionWorkers(rows, c);
      UniqueFacts(all);
      FilterMember(Unique(all), x => x !in started);
      FilterDistinct(Unique(all), x => x !in started);
    }
  }

  lemma WorkersForFacts(action: Action, rows: Rows, c: JobConf, updated: seq<string>)
    requires Distinct(updated)
    ensures Distinct(WorkersFor(action, rows, c, updated))
    ensures forall w :: w in WorkersFor(action, rows, c, updated) <==>
                        w in updated && w in rows && UpdateAction(rows[w], c) == action
  {
    hide UpdateAction;
    FilterMember(updated, w => w in rows && UpdateAction(rows[w], c) == action);
    FilterDistinct(updated, w => w in rows && UpdateAction(rows[w], c) == action);
  }

  // ---- The action of a row ----

  /** The staged digest of the path is not the deployed one, or only one of the two is there. */
  predicate FileChanged(a: Allocation, p: string) {
    p in a.files && a.files[p].pending != a.files[p].applied
  }

  /** On a deployed row, only hook files changed. */
  ghost predicate HooksChanged(a: Allocation) {
    && a.plan.Some? && a.plan.value.applied.Some?
    && (exists p :: FileChanged(a, p))
    && forall p :: FileChanged(a, p) ==> GlobMatch(HooksGlob, p)
  }

  /** What a row asks of the update phase, for every policy. A mere version change reloads where reloading is
      configured; content goes by the changed paths. */
  lemma UpdateActionExactly(a: Allocation, c: JobConf)
    ensures var action, synced := UpdateAction(a, c), c.policy == Never || HooksChanged(a);
            var versionOnly := !ContentPending(a) && NeedsVersion(a);
            && action in {Sync, Restart, Reload}
            && (action == Sync <==> synced)
            && (!synced && c.policy == Always ==>
                  (action == Restart <==>
                     || c.reloadGlobs == []
                     || (!versionOnly && exists p :: FileChanged(a, p) && !MatchesAny(c.reloadGlobs, p))))
            && (!synced && c.policy == OnReload ==>
                  (action == Restart <==>
                     !versionOnly && exists p :: FileChanged(a, p) && MatchesAny(c.restartGlobs, p)))
            && (!synced && c.policy == Unknown ==> action == Restart)
  {
    hide ResolveUpdateAction, NeedsVersion, PathChanged;
    var previous, current := AppliedFiles(a), PendingFiles(a);
    forall p
      ensures PathChanged(previous, current, p) <==> FileChanged(a, p)
    {
      ChangedPath(a, p);
    }
    var hashChanged := ContentPending(a);
    ResolvedExactly(c.policy, c.restartGlobs, c.reloadGlobs, previous, current, hashChanged,
                    NeedsVersion(a) && !hashChanged, a.plan.None? || a.plan.value.applied.None?);
  }

  lemma ChangedPath(a: Allocation, p: string)
    ensures PathChanged(AppliedFiles(a), PendingFiles(a), p) <==> FileChanged(a, p)
  {
  }
}
