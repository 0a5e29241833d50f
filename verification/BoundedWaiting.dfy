/** How long a queued acquire waits, over every interleaving (hooks/runtime_semaphore.go). */
module BoundedWaiting {
  import opened Semaphore

  /** The waits queued before this one. */
  function Ahead(ws: seq<Waiter>, id: nat): nat {
    if ws == [] || ws[0].id == id then 0 else 1 + Ahead(ws[1..], id)
  }

  /** A release of the scope by an allocation that holds it. */
  predicate Frees(scopes: Scopes, step: Step, scope: string) {
    step.Releasing? && step.scope == scope && scope in scopes && step.alloc in scopes[scope].holders
  }

  function Releases(scopes: Scopes, steps: seq<Step>, scope: string): nat
    decreases |steps|
  {
    if steps == [] then 0
    else (if Frees(scopes, steps[0], scope) then 1 else 0) + Releases(Apply(scopes, steps[0]).scopes, steps[1..], scope)
  }

  // ---- One step ----

  lemma {:induction false} AheadWithout(ws: seq<Waiter>, other: nat, id: nat)
    requires other != id
    ensures Ahead(Without(ws, other), id) <= Ahead(ws, id)
  {
    if ws != [] {
      AheadWithout(ws[1..], other, id);
      if ws[0].id != other {
        assert ([ws[0]] + Without(ws[1..], other))[1..] == Without(ws[1..], other);
      }
    }
  }

  lemma {:induction false} AheadAppend(ws: seq<Waiter>, w: Waiter, id: nat)
    requires exists v :: v in ws && v.id == id
    ensures Ahead(ws + [w], id) == Ahead(ws, id)
  {
    var v :| v in ws && v.id == id;
    if ws[0].id != id {
      assert v in ws[1..];
      AheadAppend(ws[1..], w, id);
      assert (ws + [w])[1..] == ws[1..] + [w];
    }
  }

  /** Those granted before it no longer wait ahead. */
  lemma {:induction false} AheadDrop(ws: seq<Waiter>, k: nat, id: nat)
    requires k <= |ws| && forall w :: w in ws[..k] ==> w.id != id
    ensures Ahead(ws, id) == k + Ahead(ws[k..], id)
  {
    if k > 0 {
      assert ws[0] in ws[..k];
      assert ws[1..][..k - 1] == ws[..k][1..];
      assert ws[1..][k - 1..] == ws[k..];
      AheadDrop(ws[1..], k - 1, id);
    } else {
      assert ws[0..] == ws;
    }
  }

  /** A release takes waits from the front of the queue, one at least. */
  lemma ReleaseAhead(s: Sem, alloc: string, id: nat)
    requires Valid(s) && alloc in s.holders && Queued(s, id)
    ensures var r := Release(s, alloc);
            Queued(r, id) ==> Ahead(r.waiters, id) + 1 <= Ahead(s.waiters, id)
  {
    hide Ordered, Conserved, GrantAll;
    var t := s.(holders := s.holders - {alloc});
    var r, k := GrantAll(t), GrantCount(t);
    assert k >= 1;
    GrantsPrefix(t);
    if Queued(r, id) {
      ReleaseValid(s, alloc);
      NotGranted(r, id);
      forall w | w in s.waiters[..k]
        ensures w.id != id
      {
        assert w in r.granted;
      }
      AheadDrop(s.waiters, k, id);
    }
  }

  lemma NotGranted(s: Sem, id: nat)
    requires Valid(s) && Queued(s, id)
    ensures forall w :: w in s.granted ==> w.id != id
  {
    hide Ordered, Queued;
    assert !Granted(s, id);
  }

  /** No step puts another wait ahead, and a release of the scope takes one away. */
  lemma StepAhead(scopes: Scopes, step: Step, scope: string, id: nat)
    requires AllValid(scopes) && scope in scopes && Queued(scopes[scope], id)
    ensures var after := Apply(scopes, step).scopes;
            scope in after &&
            (Queued(after[scope], id) ==>
               Ahead(after[scope].waiters, id) + (if Frees(scopes, step, scope) then 1 else 0)
               <= Ahead(scopes[scope].waiters, id))
  {
    hide Valid, Release, Cancel;
    var s := scopes[scope];
    match step
    case Acquire(k, alloc, _) =>
      if k == scope {
        AheadAppend(s.waiters, Waiter(alloc, |s.registered|), id);
      }
    case Cancelling(k, other) =>
      if k == scope {
        CancelAhead(s, other, id);
      }
    case Releasing(k, alloc) =>
      if k == scope && alloc in s.holders {
        ReleaseAhead(s, alloc, id);
      }
  }

  lemma CancelAhead(s: Sem, other: nat, id: nat)
    requires Valid(s)
    ensures Queued(Cancel(s, other), id) ==> Ahead(Cancel(s, other).waiters, id) <= Ahead(s.waiters, id)
  {
    hide Ordered, Conserved, Queued, Without;
    CancelValid(s, other);
    if other != id {
      AheadWithout(s.waiters, other, id);
    }
  }

  // ---- Every run ----

  /** A wait that left the queue was granted or cancelled. */
  lemma LeftQueue(s: Sem, r: Sem, id: nat)
    requires Valid(s) && Valid(r) && Queued(s, id) && s.registered <= r.registered
    ensures Queued(r, id) || Granted(r, id) || id in r.cancelled
  {
    hide Queued, Granted, Increasing;
    QueuedRegistered(s, id);
  }

  /** What was granted or cancelled never waits again. */
  lemma StaysServed(s: Sem, r: Sem, id: nat)
    requires Valid(r) && s.granted <= r.granted && s.cancelled <= r.cancelled
    requires Granted(s, id) || id in s.cancelled
    ensures !Queued(r, id)
  {
    hide Queued, Ordered;
    if Granted(s, id) {
      var w :| w in s.granted && w.id == id;
      assert w in r.granted;
      assert Granted(r, id);
    }
  }

  /** Over every interleaving a wait is overtaken by nobody, and each release of its scope brings it forward; with k
      waits ahead it is granted, or was cancelled, after k + 1 releases at the latest. */
  lemma {:induction false} WaitIsBounded(scopes: Scopes, steps: seq<Step>, scope: string, id: nat)
    requires AllValid(scopes) && scope in scopes && Queued(scopes[scope], id)
    ensures var s, after := scopes[scope], ApplyAll(scopes, steps);
            && scope in after
            && (Queued(after[scope], id) ==>
                  Ahead(after[scope].waiters, id) + Releases(scopes, steps, scope) <= Ahead(s.waiters, id))
            && (Releases(scopes, steps, scope) > Ahead(s.waiters, id) ==>
                  Granted(after[scope], id) || id in after[scope].cancelled)
    decreases |steps|
  {
    hide Apply, Valid, Queued, Granted, Ahead, Frees;
    EveryInterleaving(scopes, steps);
    LeftQueue(scopes[scope], ApplyAll(scopes, steps)[scope], id);
    if steps != [] {
      var next := Apply(scopes, steps[0]).scopes;
      StepAhead(scopes, steps[0], scope, id);
      StepValid(scopes, steps[0]);
      if Queued(next[scope], id) {
        WaitIsBounded(next, steps[1..], scope, id);
      } else {
        LeftQueue(scopes[scope], next[scope], id);
        EveryInterleaving(next, steps[1..]);
        StaysServed(next[scope], ApplyAll(next, steps[1..])[scope], id);
      }
    }
  }
}
