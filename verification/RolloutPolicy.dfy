/** Which lifecycle action a changed allocation gets (deploy/rollout_policy.go). */
module RolloutPolicy {
  import opened Manifest

  datatype Policy = Never | Always | OnReload | Unknown

  datatype Action = Start | Restart | Reload | Sync | Skip

  /** pathmatch.Match: an arbitrary relation between patterns and job-relative paths. */
  const GlobMatch: (string, string) -> bool

  const HooksGlob := "_hooks/**"

  predicate MatchesAny(globs: seq<string>, path: string) {
    exists g :: g in globs && GlobMatch(g, path)
  }

  function MatchAny(globs: seq<string>, paths: set<string>): set<string> {
    set p | p in paths && MatchesAny(globs, p)
  }

  function MatchNotAny(globs: seq<string>, paths: set<string>): set<string> {
    if globs == [] then {} else set p | p in paths && !MatchesAny(globs, p)
  }

  predicate OnlyHooksChanged(changed: set<string>) {
    changed != {} && |MatchAny([HooksGlob], changed)| == |changed|
  }

  datatype Decision = Decision(action: Action, matched: set<string>)

  function ResolveUpdateAction(
    policy: Policy, restartGlobs: seq<string>, reloadGlobs: seq<string>,
    previous: FileManifest, current: FileManifest,
    hashChanged: bool, versionOnly: bool, noManifest: bool): Decision
  {
    var changed := Diff(previous, current);
    if !noManifest && OnlyHooksChanged(changed) then Decision(Sync, {})
    else
      match policy
      case Never => Decision(Sync, {})
      case Always =>
        if reloadGlobs == [] then Decision(Restart, {})
        else if versionOnly && !hashChanged then Decision(Reload, {})
        else if noManifest && hashChanged then Decision(Restart, {})
        else if changed == {} then Decision(Reload, {})
        else if MatchNotAny(reloadGlobs, changed) != {} then Decision(Restart, MatchNotAny(reloadGlobs, changed))
        else Decision(Reload, MatchAny(reloadGlobs, changed))
      case OnReload =>
        if versionOnly && !hashChanged then Decision(Reload, {})
        else if noManifest && hashChanged then Decision(Reload, {})
        else if restartGlobs == [] then Decision(Reload, {})
        else if MatchAny(restartGlobs, changed) != {} then Decision(Restart, MatchAny(restartGlobs, changed))
        else Decision(Reload, {})
      case Unknown => Decision(Restart, {})
  }

  /** Counting matches is testing every path. */
  lemma OnlyHooksMeansAll(changed: set<string>)
    ensures OnlyHooksChanged(changed) <==> changed != {} && forall p :: p in changed ==> GlobMatch(HooksGlob, p)
  {
    var matched := MatchAny([HooksGlob], changed);
    assert HooksGlob in [HooksGlob];
    assert forall p :: p in changed ==> (p in matched <==> GlobMatch(HooksGlob, p));
    assert matched <= changed;
    if |matched| == |changed| {
      SubsetOfSameSize(matched, changed);
    }
    assert (forall p :: p in changed ==> GlobMatch(HooksGlob, p)) ==> matched == changed;
  }

  // ---- When each action is chosen ----

  /** The path was added, removed or given another digest. */
  predicate PathChanged(previous: FileManifest, current: FileManifest, p: string) {
    !(p !in previous && p !in current) && !(p in previous && p in current && previous[p] == current[p])
  }

  /** Something changed, and nothing but hook files. */
  ghost predicate HooksOnly(previous: FileManifest, current: FileManifest) {
    && (exists p :: PathChanged(previous, current, p))
    && forall p :: PathChanged(previous, current, p) ==> GlobMatch(HooksGlob, p)
  }

  /** The action for every policy, read off the single paths. A hook change is synced, except without a manifest;
      otherwise `never` syncs. `always` restarts unless reload patterns are set and cover every changed path; with
      them, a mere version change reloads, and content without a manifest restarts. `on-reload` reloads unless a
      changed path matches a restart pattern; a mere version change and content without a manifest reload. */
  lemma ResolvedExactly(policy: Policy, restartGlobs: seq<string>, reloadGlobs: seq<string>, previous: FileManifest,
                        current: FileManifest, hashChanged: bool, versionOnly: bool, noManifest: bool)
    ensures var action := ResolveUpdateAction(policy, restartGlobs, reloadGlobs, previous, current,
                                              hashChanged, versionOnly, noManifest).action;
            var synced := policy == Never || (!noManifest && HooksOnly(previous, current));
            var uncovered := exists p :: PathChanged(previous, current, p) && !MatchesAny(reloadGlobs, p);
            var touched := exists p :: PathChanged(previous, current, p) && MatchesAny(restartGlobs, p);
            && action in {Sync, Restart, Reload}
            && (action == Sync <==> synced)
            && (!synced && policy == Always ==>
                  (action == Restart <==>
                     || reloadGlobs == []
                     || (!(versionOnly && !hashChanged) && ((noManifest && hashChanged) || uncovered))))
            && (!synced && policy == OnReload ==>
                  (action == Restart <==>
                     !(versionOnly && !hashChanged) && !(noManifest && hashChanged) && touched))
            && (!synced && policy == Unknown ==> action == Restart)
  {
    var changed := Diff(previous, current);
    assert forall p :: p in changed <==> PathChanged(previous, current, p);
    OnlyHooksMeansAll(changed);
    hide OnlyHooksChanged, Diff, PathChanged;
    assert OnlyHooksChanged(changed) <==> HooksOnly(previous, current);
    MatchFound(restartGlobs, changed);
    MatchFound(reloadGlobs, changed);
    hide MatchAny, MatchNotAny, MatchesAny;
    forall p
      ensures restartGlobs == [] ==> !MatchesAny(restartGlobs, p)
    {
      NoGlobsMatch(p);
    }
  }

  /** The paths reported with the action: those that made it a restart, or all of them when reload patterns cover
      them. */
  lemma ReportedExactly(policy: Policy, restartGlobs: seq<string>, reloadGlobs: seq<string>, previous: FileManifest,
                        current: FileManifest, hashChanged: bool, versionOnly: bool, noManifest: bool, p: string)
    ensures var d := ResolveUpdateAction(policy, restartGlobs, reloadGlobs, previous, current,
                                         hashChanged, versionOnly, noManifest);
            var byPath := d.action != Sync && !(versionOnly && !hashChanged) && !(noManifest && hashChanged);
            p in d.matched <==>
              && byPath && PathChanged(previous, current, p)
              && (|| (policy == Always && reloadGlobs != [] && (d.action == Restart ==> !MatchesAny(reloadGlobs, p)))
                  || (policy == OnReload && d.action == Restart && MatchesAny(restartGlobs, p)))
  {
    var changed := Diff(previous, current);
    assert p in changed <==> PathChanged(previous, current, p);
    hide OnlyHooksChanged, Diff, PathChanged, MatchesAny;
    if changed == {} {
      assert p !in changed;
    }
    if reloadGlobs != [] && MatchNotAny(reloadGlobs, changed) == {} && p in changed {
      assert p !in MatchNotAny(reloadGlobs, changed);
    }
  }

  lemma MatchFound(globs: seq<string>, paths: set<string>)
    ensures MatchAny(globs, paths) != {} <==> exists p :: p in paths && MatchesAny(globs, p)
    ensures globs != [] ==> (MatchNotAny(globs, paths) != {} <==> exists p :: p in paths && !MatchesAny(globs, p))
  {
    hide MatchesAny;
    if p :| p in paths && MatchesAny(globs, p) {
      assert p in MatchAny(globs, paths);
    }
    if p :| globs != [] && p in paths && !MatchesAny(globs, p) {
      assert p in MatchNotAny(globs, paths);
    }
  }

  lemma NoGlobsMatch(p: string)
    ensures !MatchesAny([], p)
  {
  }

  lemma {:induction false} SubsetOfSameSize(a: set<string>, b: set<string>)
    requires a <= b && |a| == |b|
    ensures a == b
  {
    if a != {} {
      var x :| x in a;
      SubsetOfSameSize(a - {x}, b - {x});
    }
  }
}
