/** The FIFO semaphore coordinator, as atomic steps and as the mutex-protected program
    (hooks/runtime_semaphore.go). */
module Semaphore {
  import opened Prelude

  const MaxCapacity := 64

  /** A queued acquire. Its notify channel is identified by its position among the waits of its scope. */
  datatype Waiter = Waiter(alloc: string, id: nat)

  /** One scope: the semaphore, and the history of the waits it queued, granted and cancelled. */
  datatype Sem = Sem(
    capacity: int, holders: set<string>, waiters: seq<Waiter>,
    registered: seq<string>, granted: seq<Waiter>, cancelled: set<nat>)

  type Scopes = map<string, Sem>

  // ---- Steps on one semaphore ----

  function NewSem(capacity: int): Sem {
    Sem(capacity, {}, [], [], [], {})
  }

  function Enqueue(s: Sem, alloc: string): Sem {
    s.(waiters := s.waiters + [Waiter(alloc, |s.registered|)], registered := s.registered + [alloc])
  }

  /** Takes a free slot, or queues; a holder that asks again is served at once. */
  function Register(s: Sem, alloc: string): Sem {
    if alloc in s.holders then s
    else if |s.holders| < s.capacity then s.(holders := s.holders + {alloc})
    else Enqueue(s, alloc)
  }

  /** Grants the oldest waiting acquire. */
  function GrantOne(s: Sem): Sem
    requires s.waiters != []
  {
    s.(holders := s.holders + {s.waiters[0].alloc},
       waiters := s.waiters[1..],
       granted := s.granted + [s.waiters[0]])
  }

  /** Grants waiting acquires, oldest first, while slots are free. */
  function GrantAll(s: Sem): Sem
    decreases |s.waiters|
  {
    if |s.holders| < s.capacity && s.waiters != [] then GrantAll(GrantOne(s)) else s
  }

  function Release(s: Sem, alloc: string): Sem
    requires alloc in s.holders
  {
    GrantAll(s.(holders := s.holders - {alloc}))
  }

  function Without(ws: seq<Waiter>, id: nat): seq<Waiter> {
    if ws == [] then []
    else if ws[0].id == id then Without(ws[1..], id)
    else [ws[0]] + Without(ws[1..], id)
  }

  predicate Queued(s: Sem, id: nat) {
    exists w :: w in s.waiters && w.id == id
  }

  predicate Granted(s: Sem, id: nat) {
    exists w :: w in s.granted && w.id == id
  }

  function Cancel(s: Sem, id: nat): Sem {
    s.(waiters := Without(s.waiters, id),
       cancelled := if Queued(s, id) then s.cancelled + {id} else s.cancelled)
  }

  // ---- The invariant ----

  ghost predicate Increasing(ws: seq<Waiter>) {
    forall i, j :: 0 <= i < j < |ws| ==> ws[i].id < ws[j].id
  }

  /** Queue and grants name registered waits, in registration order, grants before the queue. */
  ghost predicate Ordered(s: Sem) {
    && (forall w :: w in s.waiters + s.granted ==> w.id < |s.registered| && s.registered[w.id] == w.alloc)
    && Increasing(s.granted + s.waiters)
  }

  /** Every registered wait is in exactly one of the three places. */
  ghost predicate Conserved(s: Sem) {
    && (forall id :: 0 <= id < |s.registered| ==> Queued(s, id) || Granted(s, id) || id in s.cancelled)
    && (forall id :: id in s.cancelled ==> id < |s.registered| && !Queued(s, id) && !Granted(s, id))
    && (forall id :: !(Queued(s, id) && Granted(s, id)))
  }

  ghost predicate Bounded(s: Sem) {
    && 1 <= s.capacity <= MaxCapacity
    && |s.holders| <= s.capacity
  }

  ghost predicate Valid(s: Sem) {
    && Bounded(s)
    && (s.waiters != [] ==> |s.holders| == s.capacity)
    && Ordered(s)
    && Conserved(s)
  }

  lemma NewSemValid(capacity: int)
    requires 1 <= capacity <= MaxCapacity
    ensures Valid(NewSem(capacity))
  {
  }

  lemma RegisterValid(s: Sem, alloc: string)
    requires Valid(s)
    ensures Valid(Register(s, alloc))
    ensures Register(s, alloc).capacity == s.capacity
  {
    hide Ordered, Conserved;
    if alloc !in s.holders {
      if |s.holders| < s.capacity {
        SamePlaces(s, Register(s, alloc));
      } else {
        EnqueueOrdered(s, alloc);
        EnqueueConserved(s, alloc);
      }
    }
  }

  /** Order and conservation do not speak of the holders. */
  lemma SamePlaces(s: Sem, r: Sem)
    requires r.waiters == s.waiters && r.granted == s.granted
    requires r.registered == s.registered && r.cancelled == s.cancelled
    ensures Ordered(s) ==> Ordered(r)
    ensures Conserved(s) ==> Conserved(r)
  {
    hide Increasing;
    assert forall id :: Queued(r, id) == Queued(s, id) && Granted(r, id) == Granted(s, id);
  }

  lemma EnqueueOrdered(s: Sem, alloc: string)
    requires Ordered(s)
    ensures Ordered(Enqueue(s, alloc))
  {
    var w := Waiter(alloc, |s.registered|);
    var before, after := s.granted + s.waiters, Enqueue(s, alloc).granted + Enqueue(s, alloc).waiters;
    assert after == before + [w];
    forall i | 0 <= i < |before|
      ensures before[i].id < w.id
    {
      assert before[i] in s.waiters + s.granted;
    }
  }

  lemma EnqueueConserved(s: Sem, alloc: string)
    requires Ordered(s) && Conserved(s)
    ensures Conserved(Enqueue(s, alloc))
  {
    hide Ordered;
    var r, w := Enqueue(s, alloc), Waiter(alloc, |s.registered|);
    forall id: nat
      ensures Queued(r, id) <==> Queued(s, id) || id == w.id
    {
      assert w in r.waiters;
      if Queued(s, id) {
        var x :| x in s.waiters && x.id == id;
        assert x in r.waiters;
      }
    }
    assert forall id: nat :: Granted(r, id) == Granted(s, id);
    hide Queued, Granted;
    GrantedRegistered(s);
  }

  lemma GrantedRegistered(s: Sem)
    requires Ordered(s)
    ensures forall id: nat :: Granted(s, id) ==> id < |s.registered|
  {
    forall id: nat | Granted(s, id)
      ensures id < |s.registered|
    {
      var w :| w in s.granted && w.id == id;
      assert w in s.waiters + s.granted;
    }
  }

  lemma GrantOneKeeps(s: Sem)
    requires s.waiters != [] && |s.holders| < s.capacity && Bounded(s) && Ordered(s) && Conserved(s)
    ensures Bounded(GrantOne(s)) && Ordered(GrantOne(s)) && Conserved(GrantOne(s))
  {
    hide Ordered, Conserved;
    GrantOrdered(s);
    GrantConserved(s);
  }

  lemma GrantOrdered(s: Sem)
    requires s.waiters != [] && Ordered(s)
    ensures Ordered(GrantOne(s))
  {
    hide Increasing;
    var r, h := GrantOne(s), s.waiters[0];
    assert s.waiters == [h] + s.waiters[1..];
    assert r.granted + r.waiters == s.granted + s.waiters;
    forall w | w in r.waiters + r.granted
      ensures w in s.waiters + s.granted
    {
    }
  }

  lemma GrantConserved(s: Sem)
    requires s.waiters != [] && Ordered(s) && Conserved(s)
    ensures Conserved(GrantOne(s))
  {
    hide Ordered, Queued, Granted;
    HeadOnce(s);
    MovedHead(s, s.waiters[0]);
    HeadQueued(s);
  }

  lemma HeadQueued(s: Sem)
    requires s.waiters != []
    ensures Queued(s, s.waiters[0].id)
  {
  }

  lemma HeadOnce(s: Sem)
    requires s.waiters != [] && Ordered(s)
    ensures forall w :: w in s.waiters[1..] ==> w.id != s.waiters[0].id
  {
    var all, rest := s.granted + s.waiters, s.waiters[1..];
    forall w | w in rest
      ensures w.id != s.waiters[0].id
    {
      var i :| 0 <= i < |rest| && rest[i] == w;
      assert all[|s.granted|] == s.waiters[0] && all[|s.granted| + 1 + i] == w;
    }
  }

  /** Moving the head from the queue to the grants changes nothing else. */
  lemma MovedHead(s: Sem, h: Waiter)
    requires s.waiters != [] && h == s.waiters[0]
    requires forall w :: w in s.waiters[1..] ==> w.id != h.id
    ensures forall id :: Queued(GrantOne(s), id) <==> Queued(s, id) && id != h.id
    ensures forall id :: Granted(GrantOne(s), id) <==> Granted(s, id) || id == h.id
  {
    var r := GrantOne(s);
    assert s.waiters == [h] + s.waiters[1..];
    assert h in s.waiters && h in r.granted;
    forall id
      ensures Queued(r, id) <==> Queued(s, id) && id != h.id
    {
      if Queued(s, id) && id != h.id {
        var w :| w in s.waiters && w.id == id;
        assert w in r.waiters;
      }
      if Queued(r, id) {
        var w :| w in r.waiters && w.id == id;
        assert w in s.waiters;
      }
    }
    forall id
      ensures Granted(r, id) <==> Granted(s, id) || id == h.id
    {
      if Granted(s, id) {
        var w :| w in s.granted && w.id == id;
        assert w in r.granted;
      }
    }
  }

  lemma {:induction false} GrantAllKeeps(s: Sem)
    requires Bounded(s) && Ordered(s) && Conserved(s)
    ensures Valid(GrantAll(s)) && GrantAll(s).capacity == s.capacity
    decreases |s.waiters|
  {
    hide Ordered, Conserved;
    if |s.holders| < s.capacity && s.waiters != [] {
      GrantOneKeeps(s);
      GrantAllKeeps(GrantOne(s));
    }
  }

  lemma ReleaseValid(s: Sem, alloc: string)
    requires Valid(s) && alloc in s.holders
    ensures Valid(Release(s, alloc)) && Release(s, alloc).capacity == s.capacity
  {
    hide GrantAll, Ordered, Conserved;
    var t := s.(holders := s.holders - {alloc});
    SamePlaces(s, t);
    GrantAllKeeps(t);
  }

  lemma {:induction false} WithoutMember(ws: seq<Waiter>, id: nat)
    ensures forall w :: w in Without(ws, id) <==> w in ws && w.id != id
  {
    if ws != [] {
      WithoutMember(ws[1..], id);
      assert ws == [ws[0]] + ws[1..];
    }
  }

  /** Cancelling keeps the order of the others. */
  lemma {:induction false} WithoutIncreasing(front: seq<Waiter>, ws: seq<Waiter>, id: nat)
    requires Increasing(front + ws)
    ensures Increasing(front + Without(ws, id))
    decreases |ws|
  {
    if ws != [] {
      assert ws == [ws[0]] + ws[1..];
      assert front + ws == front + [ws[0]] + ws[1..];
      if ws[0].id == id {
        DropIncreasing(front, ws[0], ws[1..]);
        WithoutIncreasing(front, ws[1..], id);
      } else {
        WithoutIncreasing(front + [ws[0]], ws[1..], id);
        assert front + [ws[0]] + Without(ws[1..], id) == front + ([ws[0]] + Without(ws[1..], id));
      }
    }
  }

  lemma DropIncreasing(front: seq<Waiter>, w: Waiter, rest: seq<Waiter>)
    requires Increasing(front + [w] + rest)
    ensures Increasing(front + rest)
  {
    var whole, less := front + [w] + rest, front + rest;
    forall i, j | 0 <= i < j < |less|
      ensures less[i].id < less[j].id
    {
      var i', j' := if i < |front| then i else i + 1, if j < |front| then j else j + 1;
      assert less[i] == whole[i'] && less[j] == whole[j'];
    }
  }

  lemma {:induction false} WithoutLength(ws: seq<Waiter>, id: nat)
    requires Increasing(ws)
    ensures |Without(ws, id)| == |ws| - (if exists w :: w in ws && w.id == id then 1 else 0)
  {
    if ws != [] {
      var h, rest := ws[0], ws[1..];
      assert ws == [h] + rest;
      WithoutLength(rest, id);
      if h.id == id {
        assert h in ws;
        assert forall w :: w in rest ==> w.id != id;
      } else {
        assert (exists w :: w in ws && w.id == id) <==> (exists w :: w in rest && w.id == id);
      }
    }
  }

  lemma CancelValid(s: Sem, id: nat)
    requires Valid(s)
    ensures Valid(Cancel(s, id)) && Cancel(s, id).capacity == s.capacity
    ensures forall k :: Queued(Cancel(s, id), k) <==> Queued(s, k) && k != id
    ensures |Cancel(s, id).waiters| == |s.waiters| - (if Queued(s, id) then 1 else 0)
  {
    hide Increasing, Without, Conserved, Ordered, Queued;
    CancelOrdered(s, id);
    CancelConserved(s, id);
    CancelPlaces(s, id);
    CancelLength(s, id);
    assert s.waiters == [] ==> |Cancel(s, id).waiters| == 0;
  }

  lemma SuffixIncreasing(a: seq<Waiter>, b: seq<Waiter>)
    requires Increasing(a + b)
    ensures Increasing(b)
  {
    var all := a + b;
    assert forall i :: 0 <= i < |b| ==> b[i] == all[|a| + i];
  }

  lemma CancelOrdered(s: Sem, id: nat)
    requires Ordered(s)
    ensures Ordered(Cancel(s, id))
  {
    hide Increasing, Without;
    WithoutMember(s.waiters, id);
    WithoutIncreasing(s.granted, s.waiters, id);
  }

  lemma CancelConserved(s: Sem, id: nat)
    requires Ordered(s) && Conserved(s)
    ensures Conserved(Cancel(s, id))
  {
    hide Without, Queued, Granted, Ordered;
    CancelPlaces(s, id);
    if Queued(s, id) {
      QueuedRegistered(s, id);
    }
  }

  lemma QueuedRegistered(s: Sem, id: nat)
    requires Ordered(s) && Queued(s, id)
    ensures id < |s.registered|
  {
    var w :| w in s.waiters && w.id == id;
    assert w in s.waiters + s.granted;
  }

  lemma CancelLength(s: Sem, id: nat)
    requires Ordered(s)
    ensures |Cancel(s, id).waiters| == |s.waiters| - (if Queued(s, id) then 1 else 0)
  {
    hide Increasing, Without;
    SuffixIncreasing(s.granted, s.waiters);
    WithoutLength(s.waiters, id);
  }

  lemma CancelPlaces(s: Sem, id: nat)
    ensures forall k :: Queued(Cancel(s, id), k) <==> Queued(s, k) && k != id
    ensures forall k :: Granted(Cancel(s, id), k) <==> Granted(s, k)
  {
    var r := Cancel(s, id);
    WithoutMember(s.waiters, id);
    forall k
      ensures Queued(r, k) <==> Queued(s, k) && k != id
    {
      if Queued(s, k) && k != id {
        var w :| w in s.waiters && w.id == k;
        assert w in r.waiters;
      }
      if Queued(r, k) {
        var w :| w in r.waiters && w.id == k;
        assert w in s.waiters;
      }
    }
  }

  /** Of the waits still open, cancelling reaches exactly those not granted yet. */
  lemma CancelReachesExactly(s: Sem, id: nat)
    requires Valid(s) && id < |s.registered| && id !in s.cancelled
    ensures id in Cancel(s, id).cancelled <==> !Granted(s, id)
  {
    assert Queued(s, id) || Granted(s, id);
  }

  /** A wait already granted is past cancelling: the timed-out acquire keeps its hold. */
  lemma LateCancelKeepsHold(s: Sem, id: nat)
    requires Valid(s) && Granted(s, id)
    ensures Cancel(s, id) == s
  {
    assert !Queued(s, id);
    NothingWithout(s.waiters, id);
  }

  lemma {:induction false} NothingWithout(ws: seq<Waiter>, id: nat)
    requires forall w :: w in ws ==> w.id != id
    ensures Without(ws, id) == ws
  {
    if ws != [] {
      assert ws == [ws[0]] + ws[1..];
      NothingWithout(ws[1..], id);
    }
  }

  /** How many waits are granted. */
  ghost function GrantCount(s: Sem): (k: nat)
    ensures k <= |s.waiters|
    decreases |s.waiters|
  {
    if |s.holders| < s.capacity && s.waiters != [] then 1 + GrantCount(GrantOne(s)) else 0
  }

  /** Grants take a prefix of the queue, and make its waiters holders. */
  lemma {:induction false} GrantsPrefix(s: Sem)
    ensures var r, k := GrantAll(s), GrantCount(s);
            && r.granted == s.granted + s.waiters[..k]
            && r.waiters == s.waiters[k..]
            && s.holders <= r.holders
    ensures forall i :: 0 <= i < GrantCount(s) ==> s.waiters[i].alloc in GrantAll(s).holders
    decreases |s.waiters|
  {
    if |s.holders| < s.capacity && s.waiters != [] {
      var t := GrantOne(s);
      GrantsPrefix(t);
      var r, k := GrantAll(s), GrantCount(t);
      assert s.waiters[..k + 1] == [s.waiters[0]] + t.waiters[..k];
      assert s.waiters[k + 1..] == t.waiters[k..];
      forall i | 0 <= i < k + 1
        ensures s.waiters[i].alloc in r.holders
      {
        if i > 0 {
          assert s.waiters[i] == t.waiters[i - 1];
        }
      }
    } else {
      assert s.waiters[..0] == [] && s.waiters[0..] == s.waiters;
      assert s.granted + [] == s.granted;
    }
  }

  /** Releasing a slot someone waits for grants at least the oldest waiter. */
  lemma ReleaseServesOldest(s: Sem, alloc: string)
    requires Valid(s) && alloc in s.holders && s.waiters != []
    ensures var r := Release(s, alloc);
            && s.waiters[0] in r.granted && s.waiters[0].alloc in r.holders
            && |r.granted| > |s.granted| && r.granted[..|s.granted|] == s.granted
  {
    var t := s.(holders := s.holders - {alloc});
    assert GrantCount(t) >= 1;
    hide GrantAll, GrantCount;
    GrantsPrefix(t);
    var r, k := GrantAll(t), GrantCount(t);
    assert t.waiters[..k][0] == s.waiters[0];
    assert r.granted[|s.granted|] == s.waiters[0];
  }

  // ---- The coordinator over every interleaving ----

  /** Requests reach the coordinator one at a time, in any order; a cancel names a scope and a wait. */
  datatype Step =
    | Acquire(scope: string, alloc: string, capacity: int)
    | Cancelling(scope: string, id: nat)
    | Releasing(scope: string, alloc: string)

  datatype Reply = Held | Waiting(id: nat) | Done | CapacityTooLarge | CapacityMismatch | NotHeld

  function EffectiveCapacity(capacity: int): int {
    if capacity < 1 then 1 else capacity
  }

  datatype Effect = Effect(scopes: Scopes, reply: Reply)

  function Apply(scopes: Scopes, step: Step): Effect {
    match step
    case Acquire(scope, alloc, requested) =>
      var capacity := EffectiveCapacity(requested);
      if capacity > MaxCapacity then Effect(scopes, CapacityTooLarge)
      else if scope in scopes && scopes[scope].capacity != capacity then Effect(scopes, CapacityMismatch)
      else
        var s := if scope in scopes then scopes[scope] else NewSem(capacity);
        var r := Register(s, alloc);
        Effect(scopes[scope := r], if alloc in r.holders then Held else Waiting(|s.registered|))
    case Cancelling(scope, id) =>
      if scope !in scopes then Effect(scopes, Done)
      else Effect(scopes[scope := Cancel(scopes[scope], id)], Done)
    case Releasing(scope, alloc) =>
      if scope !in scopes || alloc !in scopes[scope].holders then Effect(scopes, NotHeld)
      else Effect(scopes[scope := Release(scopes[scope], alloc)], Done)
  }

  ghost predicate AllValid(scopes: Scopes) {
    forall k :: k in scopes ==> Valid(scopes[k])
  }

  /** History only grows: capacities are fixed, registrations and grants are appended to. */
  ghost predicate Extends(before: Scopes, after: Scopes) {
    forall k :: k in before ==>
      && k in after
      && after[k].capacity == before[k].capacity
      && before[k].registered <= after[k].registered
      && before[k].granted <= after[k].granted
      && before[k].cancelled <= after[k].cancelled
  }

  /** Replacing one scope by a valid continuation of it. */
  lemma ScopeValid(scopes: Scopes, scope: string, r: Sem)
    requires AllValid(scopes) && Valid(r)
    requires scope in scopes ==>
               && r.capacity == scopes[scope].capacity
               && scopes[scope].registered <= r.registered
               && scopes[scope].granted <= r.granted
               && scopes[scope].cancelled <= r.cancelled
    ensures AllValid(scopes[scope := r]) && Extends(scopes, scopes[scope := r])
  {
    hide Valid;
  }

  lemma StepValid(scopes: Scopes, step: Step)
    requires AllValid(scopes)
    ensures AllValid(Apply(scopes, step).scopes)
    ensures Extends(scopes, Apply(scopes, step).scopes)
  {
    hide Valid, GrantAll, Without, Queued, Extends;
    SameExtends(scopes);
    match step
    case Acquire(scope, alloc, requested) =>
      var capacity := EffectiveCapacity(requested);
      if capacity <= MaxCapacity {
        NewSemValid(capacity);
        var s := if scope in scopes then scopes[scope] else NewSem(capacity);
        RegisterValid(s, alloc);
        if s.capacity == capacity {
          ScopeValid(scopes, scope, Register(s, alloc));
        }
      }
    case Cancelling(scope, id) =>
      if scope in scopes {
        CancelValid(scopes[scope], id);
        ScopeValid(scopes, scope, Cancel(scopes[scope], id));
      }
    case Releasing(scope, alloc) =>
      if scope in scopes && alloc in scopes[scope].holders {
        var s := scopes[scope];
        ReleaseValid(s, alloc);
        GrantKeepsHistory(s.(holders := s.holders - {alloc}));
        ScopeValid(scopes, scope, Release(s, alloc));
      }
  }

  lemma SameExtends(scopes: Scopes)
    ensures Extends(scopes, scopes)
  {
  }

  lemma {:induction false} GrantKeepsHistory(s: Sem)
    ensures var r := GrantAll(s);
            r.registered == s.registered && r.cancelled == s.cancelled && s.granted <= r.granted
    decreases |s.waiters|
  {
    if |s.holders| < s.capacity && s.waiters != [] {
      GrantKeepsHistory(GrantOne(s));
    }
  }

  function ApplyAll(scopes: Scopes, steps: seq<Step>): Scopes
    decreases |steps|
  {
    if steps == [] then scopes else ApplyAll(Apply(scopes, steps[0]).scopes, steps[1..])
  }

  /** Over every interleaving: capacities never change, holders never exceed them, a non-empty queue means
      every slot is held, each wait is exactly one of queued, granted or cancelled, and grants follow
      registration order. */
  lemma {:induction false} EveryInterleaving(scopes: Scopes, steps: seq<Step>)
    requires AllValid(scopes)
    ensures AllValid(ApplyAll(scopes, steps))
    ensures Extends(scopes, ApplyAll(scopes, steps))
    decreases |steps|
  {
    hide Apply, Valid;
    if steps != [] {
      StepValid(scopes, steps[0]);
      EveryInterleaving(Apply(scopes, steps[0]).scopes, steps[1..]);
    }
  }

  // ---- Replies ----

  /** The whole effect of an acquire. A number below one asks for one slot. It is refused, and changes nothing, when it
      exceeds 64 or is not the scope's. Otherwise the allocation holds at once if it held already or a slot was free,
      and waits last in the queue, under an id of its own, if every slot was held by others. */
  ghost predicate Answered(scopes: Scopes, scope: string, alloc: string, requested: int, after: Effect) {
    var n := if requested < 1 then 1 else requested;
    var s := if scope in scopes then scopes[scope] else NewSem(n);
    if n > 64 then after == Effect(scopes, CapacityTooLarge)
    else if s.capacity != n then after == Effect(scopes, CapacityMismatch)
    else
      && (alloc in s.holders || |s.holders| < n <==> after.reply == Held)
      && (after.reply == Held ==> after.scopes == scopes[scope := s.(holders := s.holders + {alloc})])
      && (after.reply != Held ==>
            && |s.holders| == n && after.reply == Waiting(|s.registered|)
            && after.scopes == scopes[scope := s.(waiters := s.waiters + [Waiter(alloc, |s.registered|)],
                                                  registered := s.registered + [alloc])]
            && !Queued(s, |s.registered|) && !Granted(s, |s.registered|) && |s.registered| !in s.cancelled)
  }

  /** At every point of every interleaving, what an acquire is told and what it changes. */
  lemma EveryAcquireAnswered(scopes: Scopes, steps: seq<Step>, k: nat)
    requires AllValid(scopes) && k < |steps| && steps[k].Acquire?
    ensures var before, e := ApplyAll(scopes, steps[..k]), steps[k];
            Answered(before, e.scope, e.alloc, e.capacity, Apply(before, e))
  {
    hide Ordered, Conserved, Queued, Granted;
    EveryInterleaving(scopes, steps[..k]);
    var before, e := ApplyAll(scopes, steps[..k]), steps[k];
    var n := EffectiveCapacity(e.capacity);
    if n <= MaxCapacity {
      NewSemValid(n);
      var s := if e.scope in before then before[e.scope] else NewSem(n);
      NextIdFresh(s);
      if e.alloc in s.holders {
        assert s.holders + {e.alloc} == s.holders;
      }
    }
  }

  lemma NextIdFresh(s: Sem)
    requires Valid(s)
    ensures !Queued(s, |s.registered|) && !Granted(s, |s.registered|) && |s.registered| !in s.cancelled
  {
    hide Queued;
    if Queued(s, |s.registered|) {
      QueuedRegistered(s, |s.registered|);
    }
    GrantedRegistered(s);
  }

  /** Without a number, or with one below one, a scope serves one allocation at a time: of two that acquire a new
      scope, the second waits. */
  lemma DefaultIsExclusive(scopes: Scopes, scope: string, first: string, second: string, requested: int)
    requires scope !in scopes && requested <= 1 && first != second
    ensures var after := Apply(scopes, Acquire(scope, first, requested));
            && after.reply == Held
            && Apply(after.scopes, Acquire(scope, second, requested)).reply == Waiting(0)
  {
    assert {} + {first} == {first};
  }

  ghost function Allocs(ws: seq<Waiter>): set<string> {
    set w | w in ws :: w.alloc
  }

  /** Grants take the shortest prefix of the queue after which no slot is free or nobody waits. */
  ghost predicate Granting(s: Sem, r: Sem, k: nat) {
    && k <= |s.waiters|
    && r == s.(holders := s.holders + Allocs(s.waiters[..k]), waiters := s.waiters[k..],
               granted := s.granted + s.waiters[..k])
    && (k < |s.waiters| ==> |r.holders| >= s.capacity)
    && forall i :: 0 <= i < k ==> |s.holders + Allocs(s.waiters[..i])| < s.capacity
  }

  lemma {:induction false} GrantsShortest(s: Sem)
    ensures Granting(s, GrantAll(s), GrantCount(s))
    decreases |s.waiters|
  {
    hide GrantAll, GrantCount;
    GrantStep(s);
    if |s.holders| < s.capacity && s.waiters != [] {
      var t, k := GrantOne(s), GrantCount(GrantOne(s));
      GrantsShortest(t);
      forall i | 0 <= i <= |t.waiters|
        ensures s.waiters[..i + 1] == [s.waiters[0]] + t.waiters[..i]
        ensures s.holders + Allocs(s.waiters[..i + 1]) == t.holders + Allocs(t.waiters[..i])
      {
        AllocsCons(s.waiters[0], t.waiters[..i]);
        assert s.waiters[..i + 1] == [s.waiters[0]] + t.waiters[..i];
      }
      Regroup(s.granted, [s.waiters[0]], t.waiters[..k]);
      assert t.waiters[k..] == s.waiters[k + 1..];
      forall i | 0 <= i < k + 1
        ensures |s.holders + Allocs(s.waiters[..i])| < s.capacity
      {
        if i == 0 {
          assert s.holders + Allocs(s.waiters[..0]) == s.holders;
        } else {
          assert |t.holders + Allocs(t.waiters[..i - 1])| < s.capacity;
        }
      }
    } else {
      assert s.waiters[..0] == [] && s.waiters[0..] == s.waiters && s.granted + [] == s.granted;
      assert s.holders + Allocs([]) == s.holders;
    }
  }

  lemma GrantStep(s: Sem)
    ensures |s.holders| < s.capacity && s.waiters != [] ==>
              GrantAll(s) == GrantAll(GrantOne(s)) && GrantCount(s) == 1 + GrantCount(GrantOne(s))
    ensures !(|s.holders| < s.capacity && s.waiters != []) ==> GrantAll(s) == s && GrantCount(s) == 0
  {
  }

  lemma AllocsCons(w: Waiter, ws: seq<Waiter>)
    ensures Allocs([w] + ws) == {w.alloc} + Allocs(ws)
  {
  }

  /** The whole effect of a release: refused, changing nothing, exactly when the allocation does not hold; otherwise
      its slot is given up and the queue is served from the front. */
  lemma ReleaseAnswered(scopes: Scopes, scope: string, alloc: string)
    ensures var r := Apply(scopes, Releasing(scope, alloc));
            if scope in scopes && alloc in scopes[scope].holders then
              && r.reply == Done && scope in r.scopes && r.scopes == scopes[scope := r.scopes[scope]]
              && exists k :: Granting(scopes[scope].(holders := scopes[scope].holders - {alloc}), r.scopes[scope], k)
            else r == Effect(scopes, NotHeld)
  {
    hide GrantAll, GrantCount;
    if scope in scopes && alloc in scopes[scope].holders {
      var freed := scopes[scope].(holders := scopes[scope].holders - {alloc});
      GrantsShortest(freed);
    }
  }

  // ---- Holds ----

  /** Capacity one: "b" waits behind "a", is granted when "a" releases, and its time-out comes just after. The
      cancel changes nothing, and "b" still holds. */
  lemma TimeoutAfterGrant()
    ensures var steps := [Acquire("k", "a", 1), Acquire("k", "b", 1), Releasing("k", "a"), Cancelling("k", 0)];
            var after := ApplyAll(map[], steps);
            "k" in after && after["k"].holders == {"b"} && Granted(after["k"], 0) && 0 !in after["k"].cancelled
  {
    var steps := [Acquire("k", "a", 1), Acquire("k", "b", 1), Releasing("k", "a"), Cancelling("k", 0)];
    var b := Waiter("b", 0);
    var s1 := Sem(1, {"a"}, [], [], [], {});
    var s2 := Sem(1, {"a"}, [b], ["b"], [], {});
    var s3 := Sem(1, {"b"}, [], ["b"], [b], {});
    assert Apply(map[], steps[0]).scopes == map["k" := s1];
    assert Register(s1, "b") == s2 by {
      assert "b" !in s1.holders && |s1.holders| == 1;
    }
    assert map["k" := s1]["k" := s2] == map["k" := s2];
    assert Apply(map["k" := s1], steps[1]).scopes == map["k" := s2];
    assert Release(s2, "a") == s3 by {
      var t := s2.(holders := {});
      assert s2.holders - {"a"} == {};
      assert GrantOne(t) == s3;
      assert GrantAll(t) == GrantAll(s3);
    }
    assert Apply(map["k" := s2], steps[2]).scopes == map["k" := s3];
    assert b in s3.granted;
    assert Cancel(s3, 0) == s3;
    assert Apply(map["k" := s3], steps[3]).scopes == map["k" := s3];
    RunFour(map[], steps);
  }

  lemma RunFour(scopes: Scopes, steps: seq<Step>)
    requires |steps| == 4
    ensures ApplyAll(scopes, steps) ==
            Apply(Apply(Apply(Apply(scopes, steps[0]).scopes, steps[1]).scopes, steps[2]).scopes, steps[3]).scopes
  {
    hide Apply;
    RunOne(scopes, steps);
    RunOne(Apply(scopes, steps[0]).scopes, steps[1..]);
    RunOne(Apply(Apply(scopes, steps[0]).scopes, steps[1]).scopes, steps[1..][1..]);
    RunOne(Apply(Apply(Apply(scopes, steps[0]).scopes, steps[1]).scopes, steps[2]).scopes, steps[1..][1..][1..]);
    assert steps[1..][1..][1..][1..] == [];
  }

  lemma RunOne(scopes: Scopes, steps: seq<Step>)
    requires steps != []
    ensures ApplyAll(scopes, steps) == ApplyAll(Apply(scopes, steps[0]).scopes, steps[1..])
  {
  }

  /** Released, an allocation is granted again exactly when one of its waits is queued with none ahead of it but
      waits of allocations that still hold. */
  ghost predicate Regrants(s: Sem, alloc: string) {
    exists i :: 0 <= i < |s.waiters| && s.waiters[i].alloc == alloc && OnlyHoldersBefore(s, alloc, i)
  }

  ghost predicate OnlyHoldersBefore(s: Sem, alloc: string, i: nat)
    requires i <= |s.waiters|
  {
    forall j :: 0 <= j < i ==> s.waiters[j].alloc in s.holders - {alloc}
  }

  /** With one free slot, grants go to holders until the first other allocation takes it. */
  lemma {:induction false} OneFreeSlot(s: Sem, alloc: string)
    requires |s.holders| + 1 == s.capacity && alloc !in s.holders
    ensures alloc in GrantAll(s).holders <==> Regrants(s, alloc)
    decreases |s.waiters|
  {
    if s.waiters != [] {
      var h, t := s.waiters[0].alloc, GrantOne(s);
      assert s.holders - {alloc} == s.holders;
      if h in s.holders {
        assert t.holders == s.holders;
        OneFreeSlot(t, alloc);
        ShiftRegrants(s, alloc);
      } else {
        assert GrantAll(t) == t;
        if h == alloc {
          assert OnlyHoldersBefore(s, alloc, 0);
        }
      }
    }
  }

  lemma ShiftRegrants(s: Sem, alloc: string)
    requires s.waiters != [] && s.waiters[0].alloc in s.holders && alloc !in s.holders
    ensures Regrants(GrantOne(s), alloc) <==> Regrants(s, alloc)
  {
    var t := GrantOne(s);
    assert t.holders == s.holders;
    if Regrants(t, alloc) {
      var i :| 0 <= i < |t.waiters| && t.waiters[i].alloc == alloc && OnlyHoldersBefore(t, alloc, i);
      assert forall j :: 0 < j <= i ==> s.waiters[j] == t.waiters[j - 1];
      assert OnlyHoldersBefore(s, alloc, i + 1);
      assert s.waiters[i + 1].alloc == alloc;
    }
    if Regrants(s, alloc) {
      var i :| 0 <= i < |s.waiters| && s.waiters[i].alloc == alloc && OnlyHoldersBefore(s, alloc, i);
      assert forall j :: 0 <= j < i - 1 ==> t.waiters[j] == s.waiters[j + 1];
      assert OnlyHoldersBefore(t, alloc, i - 1);
      assert t.waiters[i - 1].alloc == alloc;
    }
  }

  /** A release ends the hold, for every acquire that counted on it, unless the queue grants it again. */
  lemma ReleaseEndsHold(s: Sem, alloc: string)
    requires Valid(s) && alloc in s.holders
    ensures alloc in Release(s, alloc).holders <==> Regrants(s, alloc)
  {
    if s.waiters != [] {
      var freed := s.(holders := s.holders - {alloc});
      OneFreeSlot(freed, alloc);
      assert freed.holders - {alloc} == s.holders - {alloc};
      assert forall i :: 0 <= i <= |s.waiters| ==>
          (OnlyHoldersBefore(freed, alloc, i) <==> OnlyHoldersBefore(s, alloc, i));
    }
  }

  lemma StepKeepsHold(scopes: Scopes, step: Step, scope: string, alloc: string)
    requires scope in scopes && alloc in scopes[scope].holders && step != Releasing(scope, alloc)
    ensures var after := Apply(scopes, step).scopes; scope in after && alloc in after[scope].holders
  {
    hide GrantAll, GrantCount, Without, Queued;
    match step
    case Releasing(k, other) =>
      if k in scopes && other in scopes[k].holders {
        GrantsPrefix(scopes[k].(holders := scopes[k].holders - {other}));
      }
    case _ =>
  }

  /** The allocation holds at every point of the run. */
  ghost predicate HoldsThroughout(scopes: Scopes, steps: seq<Step>, scope: string, alloc: string)
    decreases |steps|
  {
    && scope in scopes && alloc in scopes[scope].holders
    && (steps != [] ==> HoldsThroughout(Apply(scopes, steps[0]).scopes, steps[1..], scope, alloc))
  }

  /** Every release of the allocation finds the queue granting it again. */
  ghost predicate ReleasesRegrant(scopes: Scopes, steps: seq<Step>, scope: string, alloc: string)
    decreases |steps|
  {
    steps != [] ==>
      && (steps[0] == Releasing(scope, alloc) ==> scope in scopes && Regrants(scopes[scope], alloc))
      && ReleasesRegrant(Apply(scopes, steps[0]).scopes, steps[1..], scope, alloc)
  }

  /** Over every interleaving a hold lasts throughout if and only if each release of its allocation, by whichever
      of its acquires, meets a queue that grants it again. */
  lemma {:induction false} HoldsUntilReleased(scopes: Scopes, steps: seq<Step>, scope: string, alloc: string)
    requires AllValid(scopes) && scope in scopes && alloc in scopes[scope].holders
    ensures HoldsThroughout(scopes, steps, scope, alloc) <==> ReleasesRegrant(scopes, steps, scope, alloc)
    decreases |steps|
  {
    hide Apply, Valid, Regrants;
    if steps != [] {
      var next := Apply(scopes, steps[0]).scopes;
      StepValid(scopes, steps[0]);
      if steps[0] == Releasing(scope, alloc) {
        ReleaseStep(scopes, scope, alloc);
      } else {
        StepKeepsHold(scopes, steps[0], scope, alloc);
      }
      if scope in next && alloc in next[scope].holders {
        HoldsUntilReleased(next, steps[1..], scope, alloc);
      }
    }
  }

  lemma ReleaseStep(scopes: Scopes, scope: string, alloc: string)
    requires AllValid(scopes) && scope in scopes && alloc in scopes[scope].holders
    ensures var next := Apply(scopes, Releasing(scope, alloc)).scopes;
            scope in next && (alloc in next[scope].holders <==> Regrants(scopes[scope], alloc))
  {
    hide Valid, GrantAll, Regrants;
    ReleaseEndsHold(scopes[scope], alloc);
  }

  /** A release that grants once. */
  lemma ReleaseGrantsOne(s: Sem, alloc: string, holders: set<string>)
    requires alloc in s.holders && s.waiters != [] && |s.holders - {alloc}| < s.capacity
    requires holders == s.holders - {alloc} + {s.waiters[0].alloc}
    requires |holders| == s.capacity || |s.waiters| == 1
    ensures Release(s, alloc) ==
            s.(holders := holders, waiters := s.waiters[1..], granted := s.granted + [s.waiters[0]])
  {
    var t := GrantOne(s.(holders := s.holders - {alloc}));
    assert GrantAll(t) == t;
  }

  const First: Waiter := Waiter("b", 0)
  const Second: Waiter := Waiter("b", 1)

  /** Capacity two, "b" queued twice behind two holders; then granted for its first wait; then for both. */
  const QueuedTwice: Sem := Sem(2, {"a", "c"}, [First, Second], ["b", "b"], [], {})
  const GrantedOnce: Sem := Sem(2, {"b", "c"}, [Second], ["b", "b"], [First], {})
  const GrantedTwice: Sem := Sem(2, {"b"}, [], ["b", "b"], [First, Second], {})

  /** Two releases grant "b" once for each of its waits, on a single hold; and one release of "b" leaves neither
      of its acquires holding. */
  lemma TwoGrantsOneHold()
    ensures ApplyAll(map[], [Acquire("k", "a", 2), Acquire("k", "c", 2), Acquire("k", "b", 2), Acquire("k", "b", 2)])
            == map["k" := QueuedTwice]
    ensures Release(QueuedTwice, "a") == GrantedOnce
    ensures Release(GrantedOnce, "c") == GrantedTwice
    ensures Release(GrantedTwice, "b").holders == {}
  {
    hide GrantAll;
    TwoQueued();
    assert QueuedTwice.holders - {"a"} == {"c"} && {"c"} + {"b"} == {"b", "c"} && |{"b", "c"}| == 2;
    ReleaseGrantsOne(QueuedTwice, "a", {"b", "c"});
    assert GrantedOnce.holders - {"c"} == {"b"} && {"b"} + {"b"} == {"b"};
    ReleaseGrantsOne(GrantedOnce, "c", {"b"});
    assert GrantedTwice.holders - {"b"} == {};
    GrantsNothing(GrantedTwice.(holders := {}));
  }

  lemma GrantsNothing(s: Sem)
    requires s.waiters == []
    ensures GrantAll(s) == s
  {
  }

  lemma TwoQueued()
    ensures ApplyAll(map[], [Acquire("k", "a", 2), Acquire("k", "c", 2), Acquire("k", "b", 2), Acquire("k", "b", 2)])
            == map["k" := QueuedTwice]
  {
    var steps := [Acquire("k", "a", 2), Acquire("k", "c", 2), Acquire("k", "b", 2), Acquire("k", "b", 2)];
    var s1 := Sem(2, {"a"}, [], [], [], {});
    var s2 := s1.(holders := {"a", "c"});
    var s3 := s2.(waiters := [First], registered := ["b"]);
    assert Register(NewSem(2), "a") == s1;
    assert Register(s1, "c") == s2 by {
      assert "c" !in s1.holders && |s1.holders| == 1 && {"a"} + {"c"} == {"a", "c"};
    }
    assert "b" !in s2.holders && |s2.holders| == 2;
    assert Register(s2, "b") == s3;
    assert Register(s3, "b") == QueuedTwice;
    hide Register;
    assert Apply(map[], steps[0]).scopes == map["k" := s1];
    assert Apply(map["k" := s1], steps[1]).scopes == map["k" := s2];
    assert Apply(map["k" := s2], steps[2]).scopes == map["k" := s3];
    assert Apply(map["k" := s3], steps[3]).scopes == map["k" := QueuedTwice];
    RunFour(map[], steps);
  }
}
