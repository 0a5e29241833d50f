/** Worker lists: filters, set-like helpers, and the order in which candidates are rolled out
    (utils/sets.go, rollout/order.go). */
module RolloutOrder {
  import opened Prelude

  function Filter<T>(xs: seq<T>, keep: T -> bool): seq<T> {
    if xs == [] then []
    else if keep(xs[0]) then [xs[0]] + Filter(xs[1..], keep)
    else Filter(xs[1..], keep)
  }

  lemma {:induction false} FilterMember<T(!new)>(xs: seq<T>, keep: T -> bool)
    ensures forall x :: x in Filter(xs, keep) <==> x in xs && keep(x)
  {
    if xs != [] {
      FilterMember(xs[1..], keep);
      assert xs == [xs[0]] + xs[1..];
    }
  }

  lemma {:induction false} FilterDistinct<T(!new)>(xs: seq<T>, keep: T -> bool)
    requires Distinct(xs)
    ensures Distinct(Filter(xs, keep))
  {
    if xs != [] {
      FilterDistinct(xs[1..], keep);
      FilterMember(xs[1..], keep);
      assert xs[0] !in xs[1..];
    }
  }

  /** First occurrences, in order. */
  function Unique(xs: seq<string>): seq<string> {
    if xs == [] then []
    else
      var rest := Unique(xs[..|xs| - 1]);
      if xs[|xs| - 1] in rest then rest else rest + [xs[|xs| - 1]]
  }

  lemma {:induction false} UniqueFacts(xs: seq<string>)
    ensures Distinct(Unique(xs))
    ensures forall x :: x in Unique(xs) <==> x in xs
  {
    if xs != [] {
      UniqueFacts(xs[..|xs| - 1]);
      assert xs == xs[..|xs| - 1] + [xs[|xs| - 1]];
    }
  }

  function Difference(a: seq<string>, b: seq<string>): seq<string> {
    Filter(a, x => x !in b)
  }

  /** Catalog order first, then candidates the catalog does not list. */
  function DefaultOrder(candidates: seq<string>, catalog: seq<string>): seq<string> {
    var listed := Filter(catalog, w => w in candidates);
    listed + Filter(candidates, w => w !in listed)
  }

  /** An operator-supplied order is used only if it lists exactly the candidates, once each. */
  predicate ValidOrder(order: seq<string>, candidates: seq<string>) {
    && (forall i, j :: 0 <= i < j < |order| ==> order[i] != order[j])
    && (forall w :: w in order ==> w in candidates)
    && (forall w :: w in candidates ==> w in order)
  }

  function ResolveOrder(candidates: seq<string>, catalog: seq<string>, stored: Option<seq<string>>): seq<string> {
    if candidates == [] then []
    else if stored.Some? && ValidOrder(stored.value, candidates) then Filter(stored.value, w => w in candidates)
    else DefaultOrder(candidates, catalog)
  }

  /** Whatever order is chosen, it lists each candidate exactly once. */
  lemma ResolveOrderPermutes(candidates: seq<string>, catalog: seq<string>, stored: Option<seq<string>>)
    requires Distinct(candidates) && Distinct(catalog)
    ensures Distinct(ResolveOrder(candidates, catalog, stored))
    ensures forall w :: w in ResolveOrder(candidates, catalog, stored) <==> w in candidates
  {
    if candidates != [] {
      if stored.Some? && ValidOrder(stored.value, candidates) {
        FilterMember(stored.value, w => w in candidates);
        FilterDistinct(stored.value, w => w in candidates);
      } else {
        var listed := Filter(catalog, w => w in candidates);
        FilterMember(catalog, w => w in candidates);
        FilterDistinct(catalog, w => w in candidates);
        FilterMember(candidates, w => w !in listed);
        FilterDistinct(candidates, w => w !in listed);
        ConcatDistinct(listed, Filter(candidates, w => w !in listed));
      }
    }
  }

  // ---- Which order it is ----

  /** The elements of `xs` stand in the order in which `order` lists them. */
  ghost predicate Follows(xs: seq<string>, order: seq<string>) {
    forall i, j :: 0 <= i < j < |xs| ==> Before(order, xs[i], xs[j])
  }

  ghost predicate Before(order: seq<string>, x: string, y: string) {
    exists p, q :: 0 <= p < q < |order| && order[p] == x && order[q] == y
  }

  /** A list names exactly these workers, each once. */
  ghost predicate Lists(order: seq<string>, candidates: seq<string>) {
    Distinct(order) && Elements(order) == Elements(candidates)
  }

  lemma {:induction false} FilterAll<T>(xs: seq<T>, keep: T -> bool)
    requires forall x :: x in xs ==> keep(x)
    ensures Filter(xs, keep) == xs
  {
    if xs != [] {
      FilterAll(xs[1..], keep);
      assert xs == [xs[0]] + xs[1..];
    }
  }

  lemma {:induction false} FilterFollows(order: seq<string>, keep: string -> bool)
    ensures Follows(Filter(order, keep), order)
  {
    if order != [] {
      var rest := Filter(order[1..], keep);
      FilterFollows(order[1..], keep);
      FilterMember(order[1..], keep);
      var kept := Filter(order, keep);
      forall i, j | 0 <= i < j < |kept|
        ensures Before(order, kept[i], kept[j])
      {
        if kept == rest || i > 0 {
          BeforeLater(order, kept[i], kept[j]);
        } else {
          assert kept[j] in order[1..];
          var q :| 0 <= q < |order[1..]| && order[1..][q] == kept[j];
          assert order[0] == kept[i] && order[q + 1] == kept[j];
        }
      }
    }
  }

  lemma BeforeLater(order: seq<string>, x: string, y: string)
    requires order != []
    ensures Before(order[1..], x, y) ==> Before(order, x, y)
  {
    if Before(order[1..], x, y) {
      var p, q :| 0 <= p < q < |order[1..]| && order[1..][p] == x && order[1..][q] == y;
      assert order[p + 1] == x && order[q + 1] == y;
    }
  }

  /** A stored order that lists exactly the candidates, once each, is followed to the letter. Otherwise those that the
      catalog lists come first, in its order, and then the others as they were given. */
  lemma OrderChosen(candidates: seq<string>, catalog: seq<string>, stored: Option<seq<string>>)
    ensures stored.Some? && Lists(stored.value, candidates) ==>
              ResolveOrder(candidates, catalog, stored) == stored.value
    ensures !(stored.Some? && Lists(stored.value, candidates)) ==>
              exists listed, others ::
                && ResolveOrder(candidates, catalog, stored) == listed + others
                && Follows(listed, catalog) && Follows(others, candidates)
                && (forall w :: w in listed <==> w in candidates && w in catalog)
                && (forall w :: w in others <==> w in candidates && w !in catalog)
  {
    var keep := (w: string) => w in candidates;
    if stored.Some? {
      assert Lists(stored.value, candidates) <==> ValidOrder(stored.value, candidates) by {
        ListsMeans(stored.value, candidates);
      }
    }
    if stored.Some? && Lists(stored.value, candidates) {
      FilterAll(stored.value, keep);
    } else if candidates == [] {
      assert ResolveOrder(candidates, catalog, stored) == [] + [];
    } else {
      var listed := Filter(catalog, keep);
      var others := Filter(candidates, w => w !in listed);
      FilterMember(catalog, keep);
      FilterMember(candidates, w => w !in listed);
      FilterFollows(catalog, keep);
      FilterFollows(candidates, w => w !in listed);
      assert ResolveOrder(candidates, catalog, stored) == listed + others;
    }
  }

  lemma ListsMeans(order: seq<string>, candidates: seq<string>)
    ensures Lists(order, candidates) <==> ValidOrder(order, candidates)
  {
    if ValidOrder(order, candidates) {
      assert Elements(order) == Elements(candidates);
    }
    if Lists(order, candidates) {
      assert forall w :: w in order <==> w in Elements(order);
      assert forall w :: w in candidates <==> w in Elements(candidates);
    }
  }

  /** An order for the whole job is disregarded in a phase over some of its workers. */
  lemma WideOrderDisregarded()
    ensures ResolveOrder(["a", "b"], ["a", "b", "c"], Some(["c", "b", "a"])) == ["a", "b"]
    ensures ResolveOrder(["a", "b", "c"], ["a", "b", "c"], Some(["c", "b", "a"])) == ["c", "b", "a"]
  {
    var wide := ["c", "b", "a"];
    assert "c" in wide && "c" !in ["a", "b"];
    var keep := (w: string) => w in ["a", "b"];
    assert ["a", "b", "c"][1..] == ["b", "c"] && ["b", "c"][1..] == ["c"] && ["c"][1..] == [];
    assert Filter(["c"], keep) == [];
    assert Filter(["b", "c"], keep) == ["b"];
    assert Filter(["a", "b", "c"], keep) == ["a", "b"];
    assert ["a", "b"][1..] == ["b"] && ["b"][1..] == [];
    assert Filter(["a", "b"], w => w !in ["a", "b"]) == [];
    assert Elements(wide) == Elements(["a", "b", "c"]);
    OrderChosen(["a", "b", "c"], ["a", "b", "c"], Some(wide));
  }
}
