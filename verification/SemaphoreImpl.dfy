/** The coordinator as the program runs it: one critical section per method, and an in-place filter of
    the waiter slice (hooks/runtime_semaphore.go). */
module SemaphoreImpl {
  import opened Semaphore

  lemma {:induction false} WithoutSnoc(ws: seq<Waiter>, w: Waiter, id: nat)
    ensures Without(ws + [w], id) == Without(ws, id) + (if w.id == id then [] else [w])
  {
    if ws == [] {
      assert ws + [w] == [w];
      assert Without([w][1..], id) == [];
    } else {
      assert (ws + [w])[1..] == ws[1..] + [w];
      WithoutSnoc(ws[1..], w, id);
    }
  }

  /** `remaining := waiters[:0]` and append: survivors are written over the slice being read. The write
      index never passes the read index, so every waiter is read before its slot is overwritten. */
  method CompactWaiters(buffer: array<Waiter>, n: nat, id: nat) returns (kept: nat)
    requires n <= buffer.Length
    modifies buffer
    ensures kept <= n
    ensures buffer[..kept] == Without(old(buffer[..n]), id)
    ensures buffer[n..] == old(buffer[n..])
  {
    kept := 0;
    ghost var was := buffer[..n];
    assert was[..0] == [];
    for k := 0 to n
      invariant kept <= k
      invariant buffer[..kept] == Without(was[..k], id)
      invariant forall i :: k <= i < buffer.Length ==> buffer[i] == old(buffer[i])
    {
      var w := buffer[k];
      assert w == was[k];
      WithoutSnoc(was[..k], w, id);
      assert was[..k + 1] == was[..k] + [w];
      if w.id != id {
        buffer[kept] := w;
        kept := kept + 1;
        assert buffer[..kept] == Without(was[..k], id) + [w];
      }
    }
    assert was[..n] == was;
  }

  class Coordinator {
    var semaphores: Scopes

    constructor ()
      ensures semaphores == map[] && AllValid(semaphores)
    {
      semaphores := map[];
    }

    /** registerWait behind the capacity checks of acquire. */
    method RegisterWait(scope: string, alloc: string, requested: int) returns (reply: Reply)
      requires AllValid(semaphores)
      modifies this
      ensures AllValid(semaphores) && Extends(old(semaphores), semaphores)
      ensures Effect(semaphores, reply) == Apply(old(semaphores), Acquire(scope, alloc, requested))
    {
      StepValid(semaphores, Acquire(scope, alloc, requested));
      hide AllValid, Extends;
      var capacity := if requested < 1 then 1 else requested;
      if capacity > MaxCapacity {
        return CapacityTooLarge;
      }
      var s;
      if scope !in semaphores {
        s := Sem(capacity, {}, [], [], [], {});
      } else {
        s := semaphores[scope];
        if s.capacity != capacity {
          return CapacityMismatch;
        }
      }
      if alloc in s.holders {
        semaphores := semaphores[scope := s];
        return Held;
      }
      if |s.holders| < s.capacity {
        semaphores := semaphores[scope := s.(holders := s.holders + {alloc})];
        return Held;
      }
      var w := Waiter(alloc, |s.registered|);
      semaphores := semaphores[scope := s.(waiters := s.waiters + [w], registered := s.registered + [alloc])];
      return Waiting(w.id);
    }

    method CancelWait(scope: string, id: nat)
      requires AllValid(semaphores)
      modifies this
      ensures AllValid(semaphores) && Extends(old(semaphores), semaphores)
      ensures semaphores == Apply(old(semaphores), Cancelling(scope, id)).scopes
    {
      StepValid(semaphores, Cancelling(scope, id));
      hide AllValid, Extends, Cancel;
      if scope !in semaphores {
        return;
      }
      var s := CancelIn(semaphores[scope], id);
      semaphores := semaphores[scope := s];
    }

    static method CancelIn(s: Sem, id: nat) returns (r: Sem)
      ensures r == Cancel(s, id)
    {
      var n := |s.waiters|;
      var buffer := new Waiter[n](i requires 0 <= i < n => s.waiters[i]);
      assert buffer[..n] == s.waiters;
      var kept := CompactWaiters(buffer, n, id);
      var found := exists w :: w in s.waiters && w.id == id;
      r := s.(waiters := buffer[..kept], cancelled := if found then s.cancelled + {id} else s.cancelled);
    }

    /** Grants in a loop while a slot is free and someone waits. */
    static method GrantNextWaiter(s: Sem) returns (r: Sem)
      ensures r == GrantAll(s)
    {
      r := s;
      while |r.holders| < r.capacity && |r.waiters| > 0
        invariant GrantAll(r) == GrantAll(s)
        decreases |r.waiters|
      {
        var next := r.waiters[0];
        r := r.(waiters := r.waiters[1..], holders := r.holders + {next.alloc}, granted := r.granted + [next]);
      }
    }

    method ReleaseHold(scope: string, alloc: string) returns (reply: Reply)
      requires AllValid(semaphores)
      modifies this
      ensures AllValid(semaphores) && Extends(old(semaphores), semaphores)
      ensures Effect(semaphores, reply) == Apply(old(semaphores), Releasing(scope, alloc))
    {
      StepValid(semaphores, Releasing(scope, alloc));
      hide AllValid, Extends;
      if scope !in semaphores {
        return NotHeld;
      }
      var s := semaphores[scope];
      if alloc !in s.holders {
        return NotHeld;
      }
      var r := GrantNextWaiter(s.(holders := s.holders - {alloc}));
      semaphores := semaphores[scope := r];
      return Done;
    }
  }
}
