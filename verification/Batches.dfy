/** Splitting ordered workers into batches (hooks/batch.go, deploy/rollout.go). */
module Batches {
  import opened Prelude

  function EffectiveBatchSize(requested: int, total: nat, hardCap: int): (n: nat)
    ensures total >= 1 ==> n >= 1
    ensures n <= total
    ensures requested >= 1 ==> n <= requested
    ensures hardCap >= 1 ==> n <= hardCap
    ensures n < total ==> n == requested || n == hardCap
  {
    var wanted := if requested < 1 || requested > total then total else requested;
    if hardCap >= 1 && wanted > hardCap then hardCap else wanted
  }

  function BatchCount(total: nat, batchSize: int): nat {
    if total == 0 then 0
    else
      var size := if batchSize < 1 then total else batchSize;
      (total + size - 1) / size
  }

  /** Consecutive batches of `size`, the last one possibly shorter. */
  function Split<T>(xs: seq<T>, size: nat): seq<seq<T>>
    requires size >= 1
  {
    if xs == [] then []
    else if |xs| <= size then [xs]
    else [xs[..size]] + Split(xs[size..], size)
  }

  function Flatten<T>(bs: seq<seq<T>>): seq<T> {
    if bs == [] then [] else bs[0] + Flatten(bs[1..])
  }

  /** The batches are the input cut in order. */
  lemma {:induction false} SplitFlatten<T>(xs: seq<T>, size: nat)
    requires size >= 1
    ensures Flatten(Split(xs, size)) == xs
  {
    if |xs| > size {
      SplitFlatten(xs[size..], size);
      assert xs == xs[..size] + xs[size..];
    }
  }

  /** Every batch is full except the last, and none is empty. */
  lemma {:induction false} SplitSize<T>(xs: seq<T>, size: nat, k: nat)
    requires size >= 1 && k < |Split(xs, size)|
    ensures var bs := Split(xs, size); 1 <= |bs[k]| <= size && (k < |bs| - 1 ==> |bs[k]| == size)
  {
    if |xs| > size && k > 0 {
      SplitSize(xs[size..], size, k - 1);
    }
  }

  /** There are exactly BatchCount of them. */
  lemma {:induction false} SplitCount<T>(xs: seq<T>, size: nat)
    requires size >= 1
    ensures |Split(xs, size)| == BatchCount(|xs|, size)
  {
    if xs == [] {
    } else if |xs| <= size {
      assert (|xs| + size - 1) / size == 1 by { DivOnce(|xs| + size - 1, size); }
    } else {
      SplitCount(xs[size..], size);
      DivStep(|xs| - 1, size);
    }
  }

  lemma DivOnce(n: nat, d: nat)
    requires 1 <= d <= n < 2 * d
    ensures n / d == 1
  {
  }

  lemma DivStep(n: nat, d: nat)
    requires d >= 1
    ensures (n + d) / d == n / d + 1
  {
    var q := n / d;
    assert n + d == (q + 1) * d + n % d;
    QuotientUnique(n + d, d, q + 1, n % d);
  }

  lemma QuotientUnique(n: nat, d: nat, q: nat, r: nat)
    requires d >= 1 && n == q * d + r && r < d
    ensures n / d == q
  {
    var p := n / d;
    assert n == p * d + n % d;
    if p > q {
      ScaleUp(q + 1, p, d);
    } else if p < q {
      ScaleUp(p + 1, q, d);
    }
  }

  lemma ScaleUp(a: nat, b: nat, d: nat)
    requires a <= b
    ensures a * d <= b * d
  {
  }

  method SplitWorkerBatches(ordered: seq<string>, requested: int) returns (batches: seq<seq<string>>)
    ensures ordered == [] ==> batches == []
    ensures ordered != [] ==> batches == Split(ordered, if requested < 1 then |ordered| else requested)
    ensures |batches| == BatchCount(|ordered|, requested)
    ensures Flatten(batches) == ordered
  {
    batches := [];
    if |ordered| == 0 {
      return;
    }
    var size := if requested < 1 then |ordered| else requested;
    var i := 0;
    assert ordered[0..] == ordered;
    while i < |ordered|
      invariant 0 <= i <= |ordered|
      invariant Split(ordered, size) == batches + Split(ordered[i..], size)
    {
      var end := if i + size > |ordered| then |ordered| else i + size;
      batches := batches + [ordered[i..end]];
      assert |ordered[i..]| > size ==>
          ordered[i..][..size] == ordered[i..end] && ordered[i..][size..] == ordered[end..];
      assert |ordered[i..]| <= size ==> ordered[i..] == ordered[i..end] && ordered[end..] == [];
      i := end;
    }
    assert ordered[i..] == [];
    assert batches + [] == batches;
    SplitFlatten(ordered, size);
    SplitCount(ordered, size);
  }

  // ---- Membership ----

  lemma {:induction false} FlattenMember<T>(bs: seq<seq<T>>, k: nat, x: T)
    requires k < |bs| && x in bs[k]
    ensures x in Flatten(bs)
  {
    if k > 0 {
      FlattenMember(bs[1..], k - 1, x);
    }
  }

  lemma DistinctParts<T(!new)>(a: seq<T>, b: seq<T>)
    requires Distinct(a + b)
    ensures Distinct(a) && Distinct(b)
    ensures forall x :: x in a ==> x !in b
  {
    var c := a + b;
    forall i, j | 0 <= i < j < |a|
      ensures a[i] != a[j]
    {
      assert c[i] == a[i] && c[j] == a[j];
    }
    forall i, j | 0 <= i < j < |b|
      ensures b[i] != b[j]
    {
      assert c[|a| + i] == b[i] && c[|a| + j] == b[j];
    }
    forall x | x in a
      ensures x !in b
    {
      var i :| 0 <= i < |a| && a[i] == x;
      forall j | 0 <= j < |b|
        ensures b[j] != x
      {
        assert c[i] == x && c[|a| + j] == b[j];
      }
    }
  }
}
