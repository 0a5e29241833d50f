/** The two-row edit distance and the "did you mean" suggestion (conf/error.go). A string here is its bytes. */
module EditDistance {
  import opened Prelude
  import opened StringOrder

  function Min(x: nat, y: nat): nat {
    if x <= y then x else y
  }

  function Cost(x: char, y: char): nat {
    if x == y then 0 else 1
  }

  /** Textbook recursion on prefixes. */
  function Lev(a: string, b: string): nat
    decreases |a| + |b|
  {
    if a == "" then |b|
    else if b == "" then |a|
    else
      var a', b' := a[..|a| - 1], b[..|b| - 1];
      Min(Min(Lev(a', b) + 1, Lev(a, b') + 1), Lev(a', b') + Cost(a[|a| - 1], b[|b| - 1]))
  }

  // ---- The two-row loop ----

  method Levenshtein(a: string, b: string) returns (d: nat)
    ensures d == Lev(a, b)
  {
    hide Lev;
    LevEmpty(a);
    LevEmpty(b);
    if a == b {
      LevSame(a);
      return 0;
    }
    if a == "" {
      return |b|;
    }
    if b == "" {
      return |a|;
    }
    var prev := new nat[|b| + 1](j => 0);
    var cur := new nat[|b| + 1](j => 0);
    for j := 0 to |b| + 1
      invariant forall k :: 0 <= k < j ==> prev[k] == k
    {
      prev[j] := j;
    }
    FirstRow(a, b);
    var i := 1;
    while i <= |a|
      invariant 1 <= i <= |a| + 1
      invariant prev.Length == cur.Length == |b| + 1 && prev != cur
      invariant fresh(prev) && fresh(cur)
      invariant forall k :: 0 <= k <= |b| ==> prev[k] == Lev(a[..i - 1], b[..k])
    {
      FirstColumn(a[..i], b);
      cur[0] := i;
      var j := 1;
      while j <= |b|
        invariant 1 <= j <= |b| + 1
        invariant forall k :: 0 <= k <= |b| ==> prev[k] == Lev(a[..i - 1], b[..k])
        invariant forall k :: 0 <= k < j ==> cur[k] == Lev(a[..i], b[..k])
      {
        Cell(a, b, i, j);
        var cost := if a[i - 1] == b[j - 1] then 0 else 1;
        var del := prev[j] + 1;
        var ins := cur[j - 1] + 1;
        var sub := prev[j - 1] + cost;
        cur[j] := del;
        if ins < cur[j] {
          cur[j] := ins;
        }
        if sub < cur[j] {
          cur[j] := sub;
        }
        j := j + 1;
      }
      prev, cur := cur, prev;
      i := i + 1;
    }
    assert a[..|a|] == a && b[..|b|] == b;
    return prev[|b|];
  }

  lemma FirstRow(a: string, b: string)
    ensures forall k :: 0 <= k <= |b| ==> Lev(a[..0], b[..k]) == k
  {
  }

  lemma FirstColumn(a: string, b: string)
    ensures Lev(a, b[..0]) == |a|
  {
  }

  lemma Cell(a: string, b: string, i: nat, j: nat)
    requires 1 <= i <= |a| && 1 <= j <= |b|
    ensures Lev(a[..i], b[..j]) ==
            Min(Min(Lev(a[..i - 1], b[..j]) + 1, Lev(a[..i], b[..j - 1]) + 1),
                Lev(a[..i - 1], b[..j - 1]) + Cost(a[i - 1], b[j - 1]))
  {
    assert a[..i][..i - 1] == a[..i - 1];
    assert b[..j][..j - 1] == b[..j - 1];
  }

  lemma {:induction false} LevSame(a: string)
    ensures Lev(a, a) == 0
  {
    if a != "" {
      LevSame(a[..|a| - 1]);
    }
  }

  // ---- Edits ----

  /** `y` is `x` with one character inserted, deleted or replaced, anywhere. */
  datatype Edit = Insert(at: nat, c: char) | Delete(at: nat) | Replace(at: nat, c: char)

  ghost predicate Fits(e: Edit, x: string) {
    match e
    case Insert(at, _) => at <= |x|
    case Delete(at) => at < |x|
    case Replace(at, _) => at < |x|
  }

  ghost function ApplyEdit(e: Edit, x: string): string
    requires Fits(e, x)
  {
    match e
    case Insert(at, c) => x[..at] + [c] + x[at..]
    case Delete(at) => x[..at] + x[at + 1..]
    case Replace(at, c) => x[..at] + [c] + x[at + 1..]
  }

  /** The edits, made one after the other, turn `a` into `b`. */
  ghost predicate Turns(es: seq<Edit>, a: string, b: string)
    decreases |es|
  {
    if es == [] then a == b else Fits(es[0], a) && Turns(es[1..], ApplyEdit(es[0], a), b)
  }

  // ---- No sequence of edits is shorter ----

  lemma LastCell(a: string, b: string, x: char, y: char)
    ensures Lev(a + [x], b + [y]) ==
            Min(Min(Lev(a, b + [y]) + 1, Lev(a + [x], b) + 1), Lev(a, b) + Cost(x, y))
  {
    assert (a + [x])[..|a|] == a;
    assert (b + [y])[..|b|] == b;
  }

  lemma LongerByOne(a: string, b: string, x: char)
    ensures Lev(a + [x], b) <= Lev(a, b) + 1
    ensures Lev(a, b + [x]) <= Lev(a, b) + 1
  {
    hide Lev;
    LevEmpty(a + [x]);
    LevEmpty(b + [x]);
    LevEmpty(a);
    LevEmpty(b);
    if b != "" {
      var n := |b| - 1;
      assert b == b[..n] + [b[n]];
      LastCell(a, b[..n], x, b[n]);
    }
    if a != "" {
      var n := |a| - 1;
      assert a == a[..n] + [a[n]];
      LastCell(a[..n], b, a[n], x);
    }
  }

  lemma LevEmpty(a: string)
    ensures Lev(a, "") == |a| && Lev("", a) == |a|
  {
  }

  /** `x` and `y` each are within one of the other's distance to `b`. */
  ghost predicate Near(x: string, y: string, b: string) {
    Lev(x, b) <= Lev(y, b) + 1 && Lev(y, b) <= Lev(x, b) + 1
  }

  lemma NearLast(x: string, y: string, b: string, z: char, w: char)
    requires Near(x, y, b) && Near(x, y, b + [w]) && Near(x + [z], y + [z], b)
    ensures Near(x + [z], y + [z], b + [w])
  {
    hide Lev;
    LastCell(x, b, z, w);
    LastCell(y, b, z, w);
  }

  lemma NearNew(u: string, c: char, d: char, b: string, w: char)
    requires Near(u + [c], u + [d], b)
    ensures Near(u + [c], u, b + [w]) && Near(u + [c], u + [d], b + [w])
  {
    hide Lev;
    LongerByOne(u, b + [w], c);
    LongerByOne(u, b, w);
    LongerByOne(u + [c], b, w);
    ShorterByOne(u, c, b + [w]);
    LastCell(u, b, c, w);
    LastCell(u, b, d, w);
  }

  lemma {:induction false} ShorterByOne(u: string, c: char, b: string)
    ensures Lev(u, b) <= Lev(u + [c], b) + 1
    decreases |b|
  {
    hide Lev;
    LevEmpty(u + [c]);
    LevEmpty(u);
    if b != "" {
      var n := |b| - 1;
      assert b == b[..n] + [b[n]];
      ShorterByOne(u, c, b[..n]);
      LongerByOne(u, b[..n], b[n]);
      LastCell(u, b[..n], c, b[n]);
    }
  }

  lemma NearEmpty(u: string, c: char, d: char, v: string)
    ensures Near(u + [c] + v, u + v, "") && Near(u + [c] + v, u + [d] + v, "")
  {
    hide Lev;
    LevEmpty(u + [c] + v);
    LevEmpty(u + [d] + v);
    LevEmpty(u + v);
  }

  /** Deleting, inserting or replacing a character changes the distance to any text by at most one. */
  lemma {:induction false} OneEditApart(u: string, c: char, d: char, v: string, b: string)
    ensures Near(u + [c] + v, u + v, b)
    ensures Near(u + [c] + v, u + [d] + v, b)
    decreases |v| + |b|
  {
    hide Near;
    if b == "" {
      NearEmpty(u, c, d, v);
    } else {
      var n := |b| - 1;
      var b', w := b[..n], b[n];
      assert b == b' + [w];
      OneEditApart(u, c, d, v, b');
      if v == "" {
        assert u + [c] + v == u + [c] && u + [d] + v == u + [d] && u + v == u;
        NearNew(u, c, d, b', w);
      } else {
        var v', z := v[..|v| - 1], v[|v| - 1];
        OneEditApart(u, c, d, v', b);
        OneEditApart(u, c, d, v', b');
        assert u + [c] + v == (u + [c] + v') + [z];
        assert u + [d] + v == (u + [d] + v') + [z];
        assert u + v == (u + v') + [z];
        NearLast(u + [c] + v', u + v', b', z, w);
        NearLast(u + [c] + v', u + [d] + v', b', z, w);
      }
    }
  }

  lemma EditApart(e: Edit, x: string, b: string)
    requires Fits(e, x)
    ensures Lev(x, b) <= Lev(ApplyEdit(e, x), b) + 1
  {
    hide Lev;
    match e
    case Insert(at, c) =>
      OneEditApart(x[..at], c, c, x[at..], b);
      assert x == x[..at] + x[at..];
    case Delete(at) =>
      OneEditApart(x[..at], x[at], x[at], x[at + 1..], b);
      assert x == x[..at] + [x[at]] + x[at + 1..];
    case Replace(at, c) =>
      OneEditApart(x[..at], x[at], c, x[at + 1..], b);
      assert x == x[..at] + [x[at]] + x[at + 1..];
  }

  lemma {:induction false} NoShorterScript(es: seq<Edit>, a: string, b: string)
    requires Turns(es, a, b)
    ensures Lev(a, b) <= |es|
    decreases |es|
  {
    hide Lev;
    if es == [] {
      LevSame(a);
    } else {
      EditApart(es[0], a, b);
      NoShorterScript(es[1..], ApplyEdit(es[0], a), b);
    }
  }

  // ---- Some sequence of edits is that short ----

  lemma {:induction false} TurnsConcat(es: seq<Edit>, fs: seq<Edit>, a: string, m: string, b: string)
    requires Turns(es, a, m) && Turns(fs, m, b)
    ensures Turns(es + fs, a, b)
    decreases |es|
  {
    if es == [] {
      assert es + fs == fs;
    } else {
      assert (es + fs)[1..] == es[1..] + fs;
      TurnsConcat(es[1..], fs, ApplyEdit(es[0], a), m, b);
    }
  }

  /** The same edits work in front of an unchanged last character. */
  lemma {:induction false} TurnsBefore(es: seq<Edit>, a: string, b: string, z: char)
    requires Turns(es, a, b)
    ensures Turns(es, a + [z], b + [z])
    decreases |es|
  {
    if es != [] {
      var e := es[0];
      assert Fits(e, a + [z]);
      assert ApplyEdit(e, a + [z]) == ApplyEdit(e, a) + [z];
      TurnsBefore(es[1..], ApplyEdit(e, a), b, z);
    }
  }

  lemma TurnsOnce(e: Edit, a: string, b: string)
    requires Fits(e, a) && ApplyEdit(e, a) == b
    ensures Turns([e], a, b)
  {
    assert [e][1..] == [];
  }

  lemma Appended(es: seq<Edit>, a: string, b: string, y: char) returns (fs: seq<Edit>)
    requires Turns(es, a, b)
    ensures Turns(fs, a, b + [y]) && |fs| == |es| + 1
  {
    var e := Insert(|b|, y);
    assert ApplyEdit(e, b) == b + [y];
    TurnsOnce(e, b, b + [y]);
    TurnsConcat(es, [e], a, b, b + [y]);
    fs := es + [e];
  }

  lemma Dropped(es: seq<Edit>, a: string, b: string, x: char) returns (fs: seq<Edit>)
    requires Turns(es, a, b)
    ensures Turns(fs, a + [x], b) && |fs| == |es| + 1
  {
    var e := Delete(|a|);
    assert ApplyEdit(e, a + [x]) == a;
    TurnsOnce(e, a + [x], a);
    TurnsConcat([e], es, a + [x], a, b);
    fs := [e] + es;
  }

  lemma Matched(es: seq<Edit>, a: string, b: string, x: char, y: char) returns (fs: seq<Edit>)
    requires Turns(es, a, b)
    ensures Turns(fs, a + [x], b + [y]) && |fs| == |es| + Cost(x, y)
  {
    TurnsBefore(es, a, b, x);
    fs := es;
    if x != y {
      var e := Replace(|b|, y);
      assert ApplyEdit(e, b + [x]) == b + [y];
      TurnsOnce(e, b + [x], b + [y]);
      TurnsConcat(es, [e], a + [x], b + [x], b + [y]);
      fs := es + [e];
    }
  }

  lemma NoEdits(a: string) returns (es: seq<Edit>)
    ensures Turns(es, a, a) && es == []
  {
    es := [];
  }

  lemma {:induction false} SomeScript(a: string, b: string) returns (es: seq<Edit>)
    ensures Turns(es, a, b) && |es| == Lev(a, b)
    decreases |a| + |b|
  {
    hide Lev, Turns, Cost;
    LevEmpty(a);
    LevEmpty(b);
    var n, m := |a| - 1, |b| - 1;
    if a == "" && b == "" {
      es := NoEdits(a);
    } else if a == "" {
      LevEmpty(b[..m]);
      es := SomeScript(a, b[..m]);
      es := Appended(es, a, b[..m], b[m]);
      assert b == b[..m] + [b[m]];
    } else if b == "" {
      LevEmpty(a[..n]);
      es := SomeScript(a[..n], b);
      es := Dropped(es, a[..n], b, a[n]);
      assert a == a[..n] + [a[n]];
    } else {
      var a', b', x, y := a[..n], b[..m], a[n], b[m];
      assert a == a' + [x] && b == b' + [y];
      LastCell(a', b', x, y);
      if Lev(a, b) == Lev(a', b) + 1 {
        es := SomeScript(a', b);
        es := Dropped(es, a', b, x);
      } else if Lev(a, b) == Lev(a, b') + 1 {
        es := SomeScript(a, b');
        es := Appended(es, a, b', y);
      } else {
        es := SomeScript(a', b');
        es := Matched(es, a', b', x, y);
      }
    }
  }

  /** The distance is the least number of single-character edits that turn one text into the other. */
  lemma LevIsMinimum(a: string, b: string)
    ensures exists es :: Turns(es, a, b) && |es| == Lev(a, b)
    ensures forall es :: Turns(es, a, b) ==> |es| >= Lev(a, b)
  {
    hide Lev, Turns;
    var found := SomeScript(a, b);
    forall es | Turns(es, a, b)
      ensures |es| >= Lev(a, b)
    {
      NoShorterScript(es, a, b);
    }
  }

  // ---- Suggestions ----

  /** strings.ToLower; nothing below depends on which mapping it is. */
  const ToLower: string -> string

  function Distance(name: string, c: string): nat {
    Lev(ToLower(name), ToLower(c))
  }

  const Reach: nat := 3

  /** A candidate within reach that no candidate beats. */
  ghost predicate IsClosest(name: string, cs: seq<string>, c: string) {
    c in cs && Distance(name, c) <= Reach && forall x :: x in cs ==> Distance(name, c) <= Distance(name, x)
  }

  /** The least of the closest candidates, or none when nothing is within reach. */
  ghost predicate Suggests(name: string, cs: seq<string>, r: Option<string>) {
    match r
    case None => forall x :: x in cs ==> Distance(name, x) > Reach
    case Some(b) => IsClosest(name, cs, b) && forall x :: IsClosest(name, cs, x) && x != b ==> Less(b, x)
  }

  /** `d` is the smallest distance seen, or the reach when nothing seen is nearer. */
  ghost predicate Nearest(name: string, cs: seq<string>, d: nat) {
    d <= Reach
    && (forall x :: x in cs ==> d <= Distance(name, x))
    && (d < Reach ==> exists x :: x in cs && Distance(name, x) == d)
  }

  /** `best` is the least of those at distance `d` from position `t` on, with "" for none; an empty candidate
      at that distance has made the loop forget everything before `t`. */
  ghost predicate Leads(name: string, cs: seq<string>, d: nat, t: nat, best: string) {
    t <= |cs|
    && (forall x :: x in cs[t..] && Distance(name, x) == d ==> x != "" && best != "" && (x == best || Less(best, x)))
    && (best != "" ==> best in cs[t..] && Distance(name, best) == d)
    && (t > 0 ==> cs[t - 1] == "" && Distance(name, "") == d)
  }

  ghost predicate ForgetsUpTo(name: string, cs: seq<string>, best: string) {
    exists d: nat, t: nat {:trigger Leads(name, cs, d, t, best)} :: Nearest(name, cs, d) && Leads(name, cs, d, t, best)
  }

  lemma LeadsNone(name: string)
    ensures Leads(name, [], Reach, 0, "")
  {
  }

  lemma LeadsFar(name: string, cs: seq<string>, d: nat, t: nat, best: string, c: string)
    requires Leads(name, cs, d, t, best) && Distance(name, c) > d
    ensures Leads(name, cs + [c], d, t, best)
  {
    hide Lev, Less;
    assert (cs + [c])[t..] == cs[t..] + [c];
  }

  lemma LeadsNearer(name: string, cs: seq<string>, d: nat, c: string)
    requires Nearest(name, cs, d) && Distance(name, c) < d
    ensures Leads(name, cs + [c], Distance(name, c), if c == "" then |cs| + 1 else 0, c)
  {
    hide Lev, Less;
    assert (cs + [c])[0..] == cs + [c];
    assert (cs + [c])[|cs| + 1..] == [];
  }

  lemma LeadsTie(name: string, cs: seq<string>, d: nat, t: nat, best: string, c: string)
    requires Leads(name, cs, d, t, best) && Distance(name, c) == d
    ensures var replace := best == "" || Less(c, best);
            Leads(name, cs + [c], d, if c == "" then |cs| + 1 else t, if replace then c else best)
  {
    hide Lev;
    assert (cs + [c])[t..] == cs[t..] + [c];
    assert (cs + [c])[|cs| + 1..] == [];
    LessTotal(c, best);
    assert best != "" ==> Less("", best);
    if best != "" && Less(c, best) {
      forall x | x in cs[t..] && Distance(name, x) == d
        ensures Less(c, x)
      {
        if x != best {
          LessTransitive(c, best, x);
        }
      }
    }
  }

  lemma LeadsMeaning(name: string, cs: seq<string>, d: nat, t: nat, best: string)
    requires Nearest(name, cs, d) && Leads(name, cs, d, t, best)
    ensures IsClosest(name, cs, "") <==> t > 0
    ensures Suggests(name, cs, if best == "" then None else Some(best)) <==> !IsClosest(name, cs, "")
  {
    hide Lev, Less;
    assert cs[0..] == cs;
    assert t > 0 ==> "" in cs;
    if t == 0 && best == "" && d == Reach {
      assert forall x :: x in cs ==> Distance(name, x) != d;
    }
    if IsClosest(name, cs, "") {
      assert best != "" && (forall x :: IsClosest(name, cs, x) && x != best ==> Less(best, x)) ==> Less(best, "");
      LessEmpty(best);
    }
  }

  lemma LessEmpty(x: string)
    ensures !Less(x, "")
  {
  }

  /** The hint is right for every name and candidate list unless an empty candidate is among the closest; then
      only the candidates after the last such one are considered. */
  method SuggestClosest(name: string, candidates: seq<string>) returns (r: Option<string>)
    ensures Suggests(name, candidates, r) <==> !IsClosest(name, candidates, "")
    ensures r != Some("")
    ensures ForgetsUpTo(name, candidates, if r.Some? then r.value else "")
  {
    hide Lev, Leads, Less, IsClosest, Suggests;
    var best := "";
    var bestDist: nat := 3;
    ghost var t := 0;
    LeadsNone(name);
    for i := 0 to |candidates|
      invariant Nearest(name, candidates[..i], bestDist)
      invariant Leads(name, candidates[..i], bestDist, t, best)
    {
      var c := candidates[i];
      assert candidates[..i + 1] == candidates[..i] + [c];
      var d := Levenshtein(ToLower(name), ToLower(c));
      if d > bestDist {
        LeadsFar(name, candidates[..i], bestDist, t, best, c);
      } else if d < bestDist {
        LeadsNearer(name, candidates[..i], bestDist, c);
        t := if c == "" then i + 1 else 0;
      } else {
        LeadsTie(name, candidates[..i], bestDist, t, best, c);
        t := if c == "" then i + 1 else t;
      }
      if d < bestDist || (d == bestDist && (best == "" || Less(c, best))) {
        bestDist := d;
        best := c;
      }
    }
    assert candidates[..|candidates|] == candidates;
    LeadsMeaning(name, candidates, bestDist, t, best);
    return if best == "" then None else Some(best);
  }

  /** For "a" among "b" and "" both are closest, so the hint should be ""; no hint the code can give is right. */
  lemma EmptyCandidateTies(r: Option<string>)
    requires ToLower("a") == "a" && ToLower("b") == "b" && ToLower("") == ""
    requires r != Some("")
    ensures IsClosest("a", ["b", ""], "") && IsClosest("a", ["b", ""], "b")
    ensures !Suggests("a", ["b", ""], r)
  {
    LevEmpty("a");
    LastCell("", "", 'a', 'b');
    LevEmpty("b");
    assert "" + "a" == "a" && "" + "b" == "b";
    assert "" in ["b", ""] && "b" in ["b", ""];
    if r.Some? {
      LessEmpty(r.value);
    }
  }
}
