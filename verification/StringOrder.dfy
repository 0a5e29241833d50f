/** The order of Go strings, and the sorted listing of a set of them (sort.Strings over map keys). */
module StringOrder {
  import opened Prelude

  /** Byte order of UTF-8 text is the order of its code points. */
  predicate Less(a: string, b: string) {
    b != "" && (a == "" || a[0] < b[0] || (a[0] == b[0] && Less(a[1..], b[1..])))
  }

  lemma {:induction false} LessTotal(a: string, b: string)
    ensures Less(a, b) || a == b || Less(b, a)
    ensures !(Less(a, b) && Less(b, a))
    ensures !Less(a, a)
    decreases |a|
  {
    if a != "" {
      LessTotal(a[1..], a[1..]);
      if b != "" {
        LessTotal(a[1..], b[1..]);
        assert a[0] == b[0] && a[1..] == b[1..] ==> a == [b[0]] + b[1..] == b;
      }
    }
  }

  lemma {:induction false} LessTransitive(a: string, b: string, c: string)
    requires Less(a, b) && Less(b, c)
    ensures Less(a, c)
  {
    if a != "" && a[0] == b[0] && b[0] == c[0] {
      LessTransitive(a[1..], b[1..], c[1..]);
    }
  }

  ghost predicate StrictlySorted(xs: seq<string>) {
    forall i, j :: 0 <= i < j < |xs| ==> Less(xs[i], xs[j])
  }

  lemma Least(s: set<string>) returns (m: string)
    requires s != {}
    ensures m in s && forall x :: x in s && x != m ==> Less(m, x)
    decreases s
  {
    var y :| y in s;
    if s == {y} {
      m := y;
    } else {
      var rest := s - {y};
      assert s == {y} + rest;
      var n := Least(rest);
      LessTotal(y, n);
      m := if Less(y, n) then y else n;
      forall x | x in s && x != m
        ensures Less(m, x)
      {
        if x != y && m == y && x != n {
          LessTransitive(y, n, x);
        }
      }
    }
  }

  /** The members of the set in increasing order. */
  ghost function Sorted(s: set<string>): (r: seq<string>)
    ensures StrictlySorted(r)
    ensures forall x :: x in r <==> x in s
    decreases s
  {
    if s == {} then []
    else
      assert exists m :: m in s && forall x :: x in s && x != m ==> Less(m, x) by {
        var m := Least(s);
      }
      var m :| m in s && forall x :: x in s && x != m ==> Less(m, x);
      [m] + Sorted(s - {m})
  }

  /** Sorting determines the listing. */
  lemma {:induction false} SortedUnique(xs: seq<string>, ys: seq<string>)
    requires StrictlySorted(xs) && StrictlySorted(ys)
    requires forall x :: x in xs <==> x in ys
    ensures xs == ys
    decreases |xs|
  {
    assert xs != [] ==> xs[0] in ys;
    assert ys != [] ==> ys[0] in xs;
    if xs != [] {
      SameHead(xs, ys);
      assert xs == [xs[0]] + xs[1..];
      assert ys == [ys[0]] + ys[1..];
      TailElements(xs);
      TailElements(ys);
      SortedUnique(xs[1..], ys[1..]);
    }
  }

  lemma SameHead(xs: seq<string>, ys: seq<string>)
    requires StrictlySorted(xs) && StrictlySorted(ys) && xs != [] && ys != []
    requires xs[0] in ys && ys[0] in xs
    ensures xs[0] == ys[0]
  {
    LessTotal(xs[0], ys[0]);
    var i :| 0 <= i < |ys| && ys[i] == xs[0];
    var j :| 0 <= j < |xs| && xs[j] == ys[0];
  }

  lemma TailElements(xs: seq<string>)
    requires StrictlySorted(xs) && xs != []
    ensures StrictlySorted(xs[1..])
    ensures forall x :: x in xs[1..] <==> x in xs && x != xs[0]
  {
    LessTotal(xs[0], xs[0]);
    assert xs == [xs[0]] + xs[1..];
  }

  /** Inserts into a sorted listing. */
  function Insert(x: string, xs: seq<string>): seq<string> {
    if xs == [] || Less(x, xs[0]) then [x] + xs else [xs[0]] + Insert(x, xs[1..])
  }

  lemma {:induction false} InsertSorted(x: string, xs: seq<string>)
    requires StrictlySorted(xs) && x !in xs
    ensures StrictlySorted(Insert(x, xs))
    ensures forall y :: y in Insert(x, xs) <==> y == x || y in xs
  {
    if xs != [] {
      if Less(x, xs[0]) {
        forall j | 0 <= j < |xs|
          ensures Less(x, xs[j])
        {
          if j > 0 {
            LessTransitive(x, xs[0], xs[j]);
          }
        }
      } else {
        LessTotal(x, xs[0]);
        assert xs == [xs[0]] + xs[1..];
        TailElements(xs);
        InsertSorted(x, xs[1..]);
        var rest := Insert(x, xs[1..]);
        forall j | 0 <= j < |rest|
          ensures Less(xs[0], rest[j])
        {
          assert rest[j] in rest;
          if rest[j] != x {
            var k :| 0 <= k < |xs[1..]| && xs[1..][k] == rest[j];
            assert xs[k + 1] == rest[j];
          }
        }
      }
    }
  }

  /** Collects keys in any order and sorts them. */
  method SortedKeys(keys: set<string>) returns (names: seq<string>)
    ensures names == Sorted(keys)
  {
    names := [];
    var left := keys;
    while left != {}
      invariant left <= keys
      invariant StrictlySorted(names)
      invariant forall x :: x in names <==> x in keys && x !in left
      decreases left
    {
      var k :| k in left;
      InsertSorted(k, names);
      names := Insert(k, names);
      left := left - {k};
    }
    SortedUnique(names, Sorted(keys));
  }

  /** sort.Strings on distinct strings. */
  method SortStrings(xs: seq<string>) returns (ys: seq<string>)
    requires forall i, j :: 0 <= i < j < |xs| ==> xs[i] != xs[j]
    ensures ys == Sorted(Elements(xs))
  {
    ys := [];
    for k := 0 to |xs|
      invariant StrictlySorted(ys)
      invariant forall x :: x in ys <==> x in xs[..k]
    {
      assert xs[k] !in xs[..k];
      InsertSorted(xs[k], ys);
      ys := Insert(xs[k], ys);
      assert xs[..k + 1] == xs[..k] + [xs[k]];
    }
    assert xs[..|xs|] == xs;
    SortedUnique(ys, Sorted(Elements(xs)));
  }
}
