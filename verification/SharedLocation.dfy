/** The reference-counted "same root may share" lock around the bucket location (bucket/location.go,
    bucket/const.go), as atomic critical sections under every interleaving of its callers and of the direct
    assignments that bucket discovery makes without the lock (bucket/discover.go). */
module SharedLocation {
  import opened Prelude

  /** path.Join; nothing below depends on how it joins. */
  const Join: (string, string) -> string

  datatype Paths = Paths(
    workspace: string, commands: string, templates: string, secrets: string, temp: string, logs: string,
    runLogs: string)

  function PathsOf(location: string): Paths {
    var workspace, logs := Join(location, "workspace"), Join(location, "logs");
    Paths(workspace, Join(workspace, "commands"), Join(location, "templates"), Join(location, "secrets"),
          Join(location, "tmp"), logs, Join(logs, "runs"))
  }

  /** The package variables. */
  datatype Lock = Lock(location: string, paths: Paths, activeLoc: string, holders: int, savedPrev: string)

  const Unlocked: Lock := Lock(".", PathsOf("."), "", 0, "")

  predicate Blocked(l: Lock, root: string) {
    l.holders > 0 && l.activeLoc != root
  }

  /** Past the wait loop. */
  function Acquire(l: Lock, root: string): Lock {
    if l.holders == 0 then Lock(root, PathsOf(root), root, 1, l.location)
    else l.(holders := l.holders + 1)
  }

  function Release(l: Lock): Lock {
    if l.holders == 1 then Lock(l.savedPrev, PathsOf(l.savedPrev), "", 0, "")
    else l.(holders := l.holders - 1)
  }

  /** ResolveRoot: sets the location and its paths, whoever is inside. */
  function Assign(l: Lock, root: string): Lock {
    l.(location := root, paths := PathsOf(root))
  }

  // ---- Every interleaving ----

  /** Callers by identity: inside `fn`, woken and about to look again, or asleep on the condition variable.
      `prior` is the location last set while nobody was inside, and `direct` the one last set directly while
      somebody of the present group is. */
  datatype State = State(
    lock: Lock, inside: map<nat, string>, awake: map<nat, string>, asleep: map<nat, string>,
    prior: string, direct: Option<string>)

  /** Callers arrive with an absolute root, look again when woken, and leave; discovery sets the location at any
      time, as it does for every hook that runs inside. */
  datatype Step = Arrive(id: nat, root: string) | Retry(id: nat) | Leave(id: nat) | Discover(root: string)

  predicate Enabled(s: State, e: Step) {
    match e
    case Arrive(id, _) => id !in s.inside && id !in s.awake && id !in s.asleep
    case Retry(id) => id in s.awake
    case Leave(id) => id in s.inside
    case Discover(_) => true
  }

  /** The wait loop: go in, or sleep. */
  function Look(s: State, id: nat, root: string): State {
    if Blocked(s.lock, root) then s.(asleep := s.asleep[id := root])
    else s.(lock := Acquire(s.lock, root), inside := s.inside[id := root])
  }

  function Next(s: State, e: Step): State
    requires Enabled(s, e)
  {
    match e
    case Arrive(id, root) => Look(s, id, root)
    case Retry(id) => Look(s.(awake := s.awake - {id}), id, s.awake[id])
    case Leave(id) =>
      s.(lock := Release(s.lock), inside := s.inside - {id}, awake := s.awake + s.asleep, asleep := map[],
         direct := if s.inside - {id} == map[] then None else s.direct)
    case Discover(root) =>
      if s.inside == map[] then s.(lock := Assign(s.lock, root), prior := root)
      else s.(lock := Assign(s.lock, root), direct := Some(root))
  }

  const Start: State := State(Unlocked, map[], map[], map[], ".", None)

  ghost predicate Runs(s: State, es: seq<Step>, t: State)
    decreases |es|
  {
    if es == [] then s == t else Enabled(s, es[0]) && Runs(Next(s, es[0]), es[1..], t)
  }

  /** The bookkeeping that no assignment can disturb: one root inside, counted, with the prior location kept. */
  ghost predicate Coherent(s: State) {
    s.lock.holders == |s.inside|
    && (forall id :: id in s.inside ==> s.inside[id] == s.lock.activeLoc)
    && s.lock.paths == PathsOf(s.lock.location)
    && (if s.inside == map[] then s.prior == s.lock.location && s.direct == None
        else s.prior == s.lock.savedPrev
             && s.lock.location == if s.direct.Some? then s.direct.value else s.lock.activeLoc)
  }

  /** No sleeper misses its wake-up: whoever sleeps is kept out by a holder of another root. */
  ghost predicate NoLostWakeup(s: State) {
    forall id :: id in s.asleep ==> Blocked(s.lock, s.asleep[id])
  }

  /** Nobody is in two places. */
  ghost predicate Apart(s: State) {
    s.inside.Keys !! s.awake.Keys && s.inside.Keys !! s.asleep.Keys && s.awake.Keys !! s.asleep.Keys
  }

  ghost predicate Invariant(s: State) {
    Coherent(s) && NoLostWakeup(s) && Apart(s)
  }

  lemma AddSize(m: map<nat, string>, id: nat, root: string)
    requires id !in m
    ensures |m[id := root]| == |m| + 1
  {
    assert m[id := root].Keys == m.Keys + {id};
    assert |m[id := root].Keys| == |m.Keys| + 1;
  }

  lemma RemoveSize(m: map<nat, string>, id: nat)
    requires id in m
    ensures |m - {id}| == |m| - 1
  {
    assert (m - {id}).Keys == m.Keys - {id};
    assert |(m - {id}).Keys| == |m.Keys| - 1;
  }

  lemma LookInvariant(s: State, id: nat, root: string)
    requires Invariant(s) && id !in s.inside && id !in s.awake && id !in s.asleep
    ensures Invariant(Look(s, id, root))
  {
    hide PathsOf;
    AddSize(s.inside, id, root);
    assert |s.inside| == 0 ==> s.inside == map[];
  }

  lemma LeaveApart(s: State, id: nat)
    requires Apart(s) && id in s.inside
    ensures Apart(Next(s, Leave(id)))
  {
    hide Release;
    var t := Next(s, Leave(id));
    assert t.inside.Keys == s.inside.Keys - {id};
    assert t.awake.Keys == s.awake.Keys + s.asleep.Keys;
  }

  lemma LeaveCoherent(s: State, id: nat)
    requires Coherent(s) && id in s.inside
    ensures Coherent(Next(s, Leave(id)))
  {
    hide PathsOf;
    RemoveSize(s.inside, id);
    var rest := s.inside - {id};
    assert |rest| == 0 <==> rest == map[];
    assert forall i :: i in rest ==> i in s.inside && rest[i] == s.inside[i];
  }

  lemma LeaveInvariant(s: State, id: nat)
    requires Invariant(s) && id in s.inside
    ensures Invariant(Next(s, Leave(id)))
  {
    hide Apart, Coherent;
    LeaveApart(s, id);
    LeaveCoherent(s, id);
  }

  lemma AssignInvariant(s: State, root: string)
    requires Invariant(s)
    ensures Invariant(Next(s, Discover(root)))
  {
    hide PathsOf;
    assert |s.inside| == 0 <==> s.inside == map[];
  }

  lemma StepInvariant(s: State, e: Step)
    requires Invariant(s) && Enabled(s, e)
    ensures Invariant(Next(s, e))
  {
    hide Coherent, NoLostWakeup, Look, Release, Assign;
    match e
    case Arrive(id, root) => LookInvariant(s, id, root);
    case Retry(id) =>
      ForgetAwake(s, id);
      LookInvariant(s.(awake := s.awake - {id}), id, s.awake[id]);
    case Leave(id) => LeaveInvariant(s, id);
    case Discover(root) => AssignInvariant(s, root);
  }

  lemma ForgetAwake(s: State, id: nat)
    requires Invariant(s)
    ensures Invariant(s.(awake := s.awake - {id}))
  {
    hide PathsOf;
  }

  lemma {:induction false} RunInvariant(s: State, es: seq<Step>, t: State)
    requires Invariant(s) && Runs(s, es, t)
    ensures Invariant(t)
    decreases |es|
  {
    hide Invariant, Enabled, Next;
    if es != [] {
      StepInvariant(s, es[0]);
      RunInvariant(Next(s, es[0]), es[1..], t);
    }
  }

  /** What the lock is for: each caller inside finds its own root, and the paths derived from it. */
  ghost predicate Shared(s: State) {
    forall id :: id in s.inside ==> s.lock.location == s.inside[id] && s.lock.paths == PathsOf(s.inside[id])
  }

  /** At every point of every interleaving: all callers inside have one root; the paths come from the location;
      with nobody inside, the prior location is back; a root is let in exactly when everyone inside has that
      root; and those inside find their root exactly when the last direct assignment since they went in, if
      there was one, named it. */
  lemma EveryInterleaving(es: seq<Step>, s: State)
    requires Runs(Start, es, s)
    ensures forall i, j :: i in s.inside && j in s.inside ==> s.inside[i] == s.inside[j]
    ensures s.lock.paths == PathsOf(s.lock.location)
    ensures s.lock.holders == |s.inside|
    ensures s.inside == map[] ==> s.lock.location == s.prior
    ensures forall root :: Blocked(s.lock, root) <==> exists id :: id in s.inside && s.inside[id] != root
    ensures forall id :: id in s.asleep ==> exists i :: i in s.inside && s.inside[i] != s.asleep[id]
    ensures Shared(s) <==> forall id :: id in s.inside ==> s.direct in {None, Some(s.inside[id])}
  {
    hide PathsOf, Runs;
    RunInvariant(Start, es, s);
    forall root
      ensures Blocked(s.lock, root) <==> exists id :: id in s.inside && s.inside[id] != root
    {
      BlockedMeans(s, root);
    }
    if s.inside != map[] {
      var i :| i in s.inside;
    }
  }

  /** Every state of the run keeps the promise. */
  ghost predicate SharedThroughout(s: State, es: seq<Step>)
    decreases |es|
  {
    Shared(s) && (es != [] && Enabled(s, es[0]) ==> SharedThroughout(Next(s, es[0]), es[1..]))
  }

  /** Every direct assignment made while someone is inside names the root they have. */
  ghost predicate Respectful(s: State, es: seq<Step>)
    decreases |es|
  {
    es != [] && Enabled(s, es[0]) ==>
      && (es[0].Discover? && s.inside != map[] ==> es[0].root == s.lock.activeLoc)
      && Respectful(Next(s, es[0]), es[1..])
  }

  lemma SharedWhen(s: State)
    requires Invariant(s)
    ensures Shared(s) <==> s.inside == map[] || s.direct in {None, Some(s.lock.activeLoc)}
  {
    hide PathsOf;
    if s.inside != map[] {
      var i :| i in s.inside;
      assert s.inside[i] == s.lock.activeLoc;
    }
  }

  /** Nothing but a direct assignment moves the present group away from its root. */
  lemma StepDirect(s: State, e: Step)
    requires Invariant(s) && Enabled(s, e) && Next(s, e).inside != map[]
    ensures var t := Next(s, e);
            if e.Discover? then t.direct == Some(e.root) && t.lock.activeLoc == s.lock.activeLoc
            else if s.inside == map[] then t.direct == None
            else t.direct == s.direct && t.lock.activeLoc == s.lock.activeLoc
  {
    hide PathsOf, NoLostWakeup, Apart;
    assert s.lock.holders == |s.inside|;
    match e
    case Leave(id) => RemoveSize(s.inside, id);
    case _ =>
  }

  lemma StepShared(s: State, e: Step)
    requires Invariant(s) && Enabled(s, e) && Shared(s)
    ensures Shared(Next(s, e)) <==> (e.Discover? && s.inside != map[] ==> e.root == s.lock.activeLoc)
  {
    hide Invariant, Shared, Look, Acquire, Release, Assign;
    StepInvariant(s, e);
    SharedWhen(s);
    SharedWhen(Next(s, e));
    if Next(s, e).inside != map[] {
      StepDirect(s, e);
    }
  }

  lemma {:induction false} SharedExactly(s: State, es: seq<Step>)
    requires Invariant(s) && Shared(s)
    ensures SharedThroughout(s, es) <==> Respectful(s, es)
    decreases |es|
  {
    hide Invariant, Shared, Enabled, Next;
    if es != [] && Enabled(s, es[0]) {
      StepShared(s, es[0]);
      StepInvariant(s, es[0]);
      if Shared(Next(s, es[0])) {
        SharedExactly(Next(s, es[0]), es[1..]);
      }
    }
  }

  /** Over every interleaving from the start: callers always find their own root and its paths if and only if
      every direct assignment made while someone is inside names the root they have. */
  lemma PromiseKeptExactly(es: seq<Step>)
    ensures SharedThroughout(Start, es) <==> Respectful(Start, es)
  {
    hide PathsOf;
    SharedExactly(Start, es);
  }

  /** A caller goes in for "/a", a hook inside it resolves the bucket to "/b", and another caller for "/a" is
      let in: both now work in "/b". */
  lemma AssignedUnderneath()
    ensures var es := [Arrive(0, "/a"), Discover("/b"), Arrive(1, "/a")];
            exists s :: Runs(Start, es, s) && s.inside == map[0 := "/a", 1 := "/a"] && s.lock.location == "/b"
                        && s.lock.paths == PathsOf("/b") && !Shared(s)
  {
    hide PathsOf;
    var e1, e2, e3 := Arrive(0, "/a"), Discover("/b"), Arrive(1, "/a");
    var s1 := Next(Start, e1);
    var s2 := Next(s1, e2);
    var s3 := Next(s2, e3);
    assert [e1, e2, e3][1..] == [e2, e3] && [e2, e3][1..] == [e3] && [e3][1..] == [];
    assert Runs(s3, [], s3);
    assert Runs(s2, [e3], s3);
    assert Runs(s1, [e2, e3], s3);
    assert Runs(Start, [e1, e2, e3], s3);
    assert s3.inside[0] == "/a" && "/a" != "/b";
  }

  // ---- The lock against a monitor without lock variables ----

  /** Who is inside, who waits, and the location last set while nobody was inside, told from the steps alone. */
  datatype Monitor = Monitor(inside: map<nat, string>, waiting: map<nat, string>, outside: string)

  /** Callers of one root may be inside together; others wait. */
  ghost function Admit(m: Monitor, id: nat, root: string): Monitor {
    if forall i :: i in m.inside ==> m.inside[i] == root then m.(inside := m.inside[id := root])
    else m.(waiting := m.waiting[id := root])
  }

  ghost function Observe(m: Monitor, e: Step): Monitor {
    match e
    case Arrive(id, root) => Admit(m, id, root)
    case Retry(id) => if id in m.waiting then Admit(m.(waiting := m.waiting - {id}), id, m.waiting[id]) else m
    case Leave(id) => m.(inside := m.inside - {id})
    case Discover(root) => if m.inside == map[] then m.(outside := root) else m
  }

  ghost function ObserveAll(m: Monitor, es: seq<Step>): Monitor
    decreases |es|
  {
    if es == [] then m else ObserveAll(Observe(m, es[0]), es[1..])
  }

  ghost function View(s: State): Monitor {
    Monitor(s.inside, s.awake + s.asleep, s.prior)
  }

  /** The guard of the wait loop is the monitor's. */
  lemma BlockedMeans(s: State, root: string)
    requires Invariant(s)
    ensures Blocked(s.lock, root) <==> exists i :: i in s.inside && s.inside[i] != root
  {
    hide PathsOf, NoLostWakeup, Apart;
    if s.inside != map[] {
      var i :| i in s.inside;
      assert |s.inside| > 0;
    }
    assert |s.inside| == 0 ==> s.inside == map[];
  }

  lemma LookObserved(s: State, id: nat, root: string)
    requires Invariant(s) && id !in s.inside && id !in s.awake && id !in s.asleep
    ensures View(Look(s, id, root)) == Admit(View(s), id, root)
  {
    hide Invariant, Blocked, Acquire;
    BlockedMeans(s, root);
    assert s.awake + s.asleep[id := root] == (s.awake + s.asleep)[id := root];
  }

  lemma StepObserved(s: State, e: Step)
    requires Invariant(s) && Enabled(s, e)
    ensures View(Next(s, e)) == Observe(View(s), e)
  {
    hide PathsOf, Look, Admit, Coherent, NoLostWakeup;
    match e
    case Arrive(id, root) => LookObserved(s, id, root);
    case Retry(id) =>
      ForgetAwake(s, id);
      LookObserved(s.(awake := s.awake - {id}), id, s.awake[id]);
      assert s.awake - {id} + s.asleep == s.awake + s.asleep - {id};
    case Leave(id) => assert s.awake + s.asleep + map[] == s.awake + s.asleep;
    case Discover(_) =>
  }

  /** The counters and the condition variable implement the monitor: over every interleaving the same callers are
      inside, the same wait, and the same location is remembered. */
  lemma {:induction false} Implements(s: State, es: seq<Step>, t: State)
    requires Invariant(s) && Runs(s, es, t)
    ensures View(t) == ObserveAll(View(s), es)
    decreases |es|
  {
    hide Invariant, Enabled, Next, View, Observe;
    if es != [] {
      StepObserved(s, es[0]);
      StepInvariant(s, es[0]);
      Implements(Next(s, es[0]), es[1..], t);
    }
  }

  /** Whatever is set directly while someone is inside is gone once all have left: location and paths are those
      last set outside. */
  lemma Restores(s: State, es: seq<Step>, t: State)
    requires Invariant(s) && Runs(s, es, t) && t.inside == map[]
    ensures var outside := ObserveAll(View(s), es).outside;
            t.lock.location == outside && t.lock.paths == PathsOf(outside)
  {
    hide PathsOf, Runs, Next, ObserveAll;
    Implements(s, es, t);
    RunInvariant(s, es, t);
  }

  // ---- Progress ----

  ghost function Pending(s: State): nat {
    |s.inside| + |s.awake| + |s.asleep|
  }

  lemma JoinSize(a: map<nat, string>, b: map<nat, string>)
    requires a.Keys !! b.Keys
    ensures |a + b| == |a| + |b|
  {
    assert (a + b).Keys == a.Keys + b.Keys;
    assert |(a + b).Keys| == |a.Keys| + |b.Keys|;
  }

  lemma LeaveShrinks(s: State, id: nat)
    requires Invariant(s) && id in s.inside
    ensures Pending(Next(s, Leave(id))) == Pending(s) - 1
  {
    RemoveSize(s.inside, id);
    JoinSize(s.awake, s.asleep);
  }

  lemma RetryEnters(s: State, id: nat)
    requires Invariant(s) && s.inside == map[] && id in s.awake
    ensures var t := Next(s, Retry(id)); |t.awake| == |s.awake| - 1 && Pending(t) == Pending(s)
  {
    RemoveSize(s.awake, id);
    AddSize(s.inside, id, s.awake[id]);
  }

  lemma Idle(s: State)
    requires Invariant(s) && s.inside == map[] && s.awake == map[]
    ensures Pending(s) == 0 && s.lock.location == s.prior
  {
    assert |s.inside| == 0;
  }

  /** No deadlock: from every state some schedule lets every caller in and out again. */
  lemma {:induction false} Drains(s: State) returns (es: seq<Step>, t: State)
    requires Invariant(s)
    ensures Runs(s, es, t) && Pending(t) == 0 && t.lock.location == s.prior
    decreases Pending(s), |s.awake|
  {
    hide Invariant, Pending;
    if s.inside == map[] && s.awake == map[] {
      Idle(s);
      es, t := [], s;
    } else {
      var e: Step;
      if s.inside != map[] {
        var id :| id in s.inside;
        e := Leave(id);
        LeaveShrinks(s, id);
      } else {
        var id :| id in s.awake;
        e := Retry(id);
        RetryEnters(s, id);
      }
      StepInvariant(s, e);
      var rest;
      rest, t := Drains(Next(s, e));
      es := [e] + rest;
      assert es[1..] == rest;
    }
  }

  // ---- The package variables, changed in place ----

  class Location {
    var location: string
    var workspaceLocation: string
    var commandsLocation: string
    var templatesLocation: string
    var secretLocation: string
    var tempLocation: string
    var logLocation: string
    var runLogLocation: string
    var activeLoc: string
    var holders: int
    var savedPrev: string

    ghost function Derived(): Paths
      reads this
    {
      Paths(workspaceLocation, commandsLocation, templatesLocation, secretLocation, tempLocation, logLocation,
            runLogLocation)
    }

    ghost function Contents(): Lock
      reads this
    {
      Lock(location, Derived(), activeLoc, holders, savedPrev)
    }

    constructor ()
      ensures Contents() == Unlocked
    {
      location, activeLoc, holders, savedPrev := ".", "", 0, "";
      new;
      UpdatePath();
    }

    /** Later paths are joined to the fields assigned before them. */
    method UpdatePath()
      modifies this`workspaceLocation, this`commandsLocation, this`templatesLocation, this`secretLocation,
               this`tempLocation, this`logLocation, this`runLogLocation
      ensures Derived() == PathsOf(location)
    {
      workspaceLocation := Join(location, "workspace");
      commandsLocation := Join(workspaceLocation, "commands");
      templatesLocation := Join(location, "templates");
      secretLocation := Join(location, "secrets");
      tempLocation := Join(location, "tmp");
      logLocation := Join(location, "logs");
      runLogLocation := Join(logLocation, "runs");
    }

    /** The assignment at the end of bucket discovery, which takes no lock. */
    method ResolveRoot(root: string)
      modifies this
      ensures Contents() == Assign(old(Contents()), root)
    {
      location := root;
      UpdatePath();
    }

    /** One pass of the wait loop; false means the caller sleeps and tries again when woken. */
    method TryEnter(root: string) returns (entered: bool)
      modifies this
      ensures entered <==> !Blocked(old(Contents()), root)
      ensures Contents() == if entered then Acquire(old(Contents()), root) else old(Contents())
    {
      if holders > 0 && activeLoc != root {
        return false;
      }
      if holders == 0 {
        savedPrev := location;
        activeLoc := root;
        location := root;
        UpdatePath();
      }
      holders := holders + 1;
      return true;
    }

    method Exit()
      modifies this
      ensures Contents() == Release(old(Contents()))
    {
      holders := holders - 1;
      if holders == 0 {
        location := savedPrev;
        UpdatePath();
        activeLoc := "";
        savedPrev := "";
      }
    }
  }
}
