/** Per-file digests of a staged job, their aggregate hash and their differences
    (data/file_manifest.go, utils/hash.go). */
module Manifest {
  import opened Prelude
  import opened StringOrder

  /** Job-relative path to content digest. */
  type FileManifest = map<string, string>

  /** A content hash, or the sentinel stored when a post-batch health gate failed. MD5 is taken as
      injective, so a tree hash is the digests it was computed from. */
  datatype Hash = Tree(digests: seq<string>) | HealthFailed

  ghost function Digests(paths: seq<string>, m: FileManifest): (r: seq<string>)
    requires forall p :: p in paths ==> p in m
    ensures |r| == |paths|
    ensures forall k :: 0 <= k < |r| ==> r[k] == m[paths[k]]
  {
    if paths == [] then [] else [m[paths[0]]] + Digests(paths[1..], m)
  }

  /** The aggregate hashes the digests in path order; the paths themselves do not enter it. */
  ghost function Aggregate(m: FileManifest): Hash {
    Tree(Digests(Sorted(m.Keys), m))
  }

  /** Added, modified and deleted paths. */
  function Diff(previous: FileManifest, current: FileManifest): set<string> {
    set p | p in previous.Keys + current.Keys && !(p in previous && p in current && previous[p] == current[p])
  }

  lemma DiffEmpty(previous: FileManifest, current: FileManifest)
    ensures Diff(previous, current) == {} <==> previous == current
  {
    if Diff(previous, current) == {} {
      forall p | p in previous.Keys + current.Keys
        ensures p in previous && p in current && previous[p] == current[p]
      {
        assert p !in Diff(previous, current);
      }
      assert previous.Keys == current.Keys;
    }
  }

  method DiffFileManifests(previous: FileManifest, current: FileManifest) returns (changed: seq<string>)
    ensures changed == Sorted(Diff(previous, current))
  {
    changed := [];
    var seen: set<string> := {};
    var left := current.Keys;
    while left != {}
      invariant left <= current.Keys
      invariant forall i, j :: 0 <= i < j < |changed| ==> changed[i] != changed[j]
      invariant forall p :: p in changed <==> p in seen
      invariant forall p :: p in seen <==>
                            p in current && p !in left && !(p in previous && previous[p] == current[p])
      decreases left
    {
      var p :| p in left;
      if p !in previous || previous[p] != current[p] {
        changed := changed + [p];
        seen := seen + {p};
      }
      left := left - {p};
    }
    var gone := previous.Keys;
    while gone != {}
      invariant gone <= previous.Keys
      invariant forall i, j :: 0 <= i < j < |changed| ==> changed[i] != changed[j]
      invariant forall p :: p in changed <==>
                            p in seen || (p in previous && p !in gone && p !in current)
      decreases gone
    {
      var p :| p in gone;
      if p !in current && p !in seen {
        changed := changed + [p];
      }
      gone := gone - {p};
    }
    assert Elements(changed) == Diff(previous, current);
    changed := SortStrings(changed);
  }

  /** Renaming a file without moving it in path order leaves the aggregate unchanged. */
  lemma RenameKeepsAggregate(digest: string)
    ensures map["a" := digest] != map["b" := digest]
    ensures Aggregate(map["a" := digest]) == Aggregate(map["b" := digest])
  {
    var a, b := map["a" := digest], map["b" := digest];
    assert "a" in a && "a" !in b;
    SortedUnique(Sorted({"a"}), ["a"]);
    SortedUnique(Sorted({"b"}), ["b"]);
    assert a.Keys == {"a"} && b.Keys == {"b"};
    assert Digests(["a"], a) == [digest];
    assert Digests(["b"], b) == [digest];
  }

  /** Two manifests share a hash exactly when their digests, each in the order of its own paths, are the same. */
  lemma AggregateExactly(m: FileManifest, n: FileManifest)
    ensures var p, q := Sorted(m.Keys), Sorted(n.Keys);
            Aggregate(m) == Aggregate(n) <==>
            |p| == |q| && forall i :: 0 <= i < |p| ==> m[p[i]] == n[q[i]]
  {
    hide Sorted;
    var p, q := Sorted(m.Keys), Sorted(n.Keys);
    var d, e := Digests(p, m), Digests(q, n);
    if |p| == |q| && forall i :: 0 <= i < |p| ==> m[p[i]] == n[q[i]] {
      assert forall i :: 0 <= i < |d| ==> d[i] == e[i];
    }
  }

  /** So a change of content, without one of paths, is always noticed. */
  lemma ContentChangeNoticed(m: FileManifest, n: FileManifest)
    requires m.Keys == n.Keys && m != n
    ensures Aggregate(m) != Aggregate(n)
  {
    hide Aggregate, Sorted;
    AggregateExactly(m, n);
    var p :| p in m && m[p] != n[p];
    assert p in Sorted(m.Keys);
  }
}
