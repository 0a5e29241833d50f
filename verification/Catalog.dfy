/** Allocation rows of one job and the operations on them (data/hash_allocation.go,
    data/file_manifest_read.go, data/allocation_version.go, data/version.go). */
module Catalog {
  import opened Prelude
  import opened Manifest
  import Versions

  const DefaultVersion := Versions.DefaultVersion

  /** A row of allocation_hashes. Rows are only ever inserted with a pending hash. */
  datatype PlanRow = PlanRow(pending: Hash, applied: Option<Hash>, appliedVersion: Option<string>)

  /** A row of allocation_file_hashes. */
  datatype FileRow = FileRow(pending: Option<string>, applied: Option<string>)

  /** An allocations row with the plan and file rows that share its alloc_id. */
  datatype Allocation = Allocation(
    removed: bool,
    disabled: bool,
    version: Option<string>,
    plan: Option<PlanRow>,
    files: map<string, FileRow>)

  /** Worker IP to allocation, for one job. */
  type Rows = map<string, Allocation>

  /** A row just staged without files, never deployed. */
  const Fresh: Allocation := Allocation(false, false, None, Some(PlanRow(Tree([]), None, Some(DefaultVersion))), map[])

  // ---- Operations on one allocation ----

  function PendingFiles(a: Allocation): FileManifest {
    map p | p in a.files && a.files[p].pending.Some? :: a.files[p].pending.value
  }

  function AppliedFiles(a: Allocation): FileManifest {
    map p | p in a.files && a.files[p].applied.Some? :: a.files[p].applied.value
  }

  /** Records new pending digests; a path neither pending nor applied keeps no row. */
  function Upsert(files: map<string, FileRow>, m: FileManifest): map<string, FileRow> {
    map p | p in m.Keys + files.Keys && (p in m || files[p].applied.Some?) ::
      FileRow(if p in m then Some(m[p]) else None, if p in files then files[p].applied else None)
  }

  function UpdatePlan(a: Allocation, hash: Hash, m: FileManifest): Allocation {
    match a.plan
    case None => a.(plan := Some(PlanRow(hash, None, Some(DefaultVersion))), files := Upsert(a.files, m))
    case Some(p) =>
      if p.pending == hash then a
      else a.(plan := Some(p.(pending := hash)), files := Upsert(a.files, m))
  }

  function TargetVersion(a: Allocation): string {
    if a.version.Some? then a.version.value else DefaultVersion
  }

  /** deleteOrphanFileHashRows: a file row without any digest is deleted. */
  function DeleteOrphans(files: map<string, FileRow>): map<string, FileRow> {
    map p | p in files && (files[p].pending.Some? || files[p].applied.Some?) :: files[p]
  }

  /** What is pending becomes what is applied, and nothing else is kept. */
  function PromoteFiles(files: map<string, FileRow>): map<string, FileRow> {
    map p | p in files && files[p].pending.Some? :: FileRow(files[p].pending, files[p].pending)
  }

  function Promote(a: Allocation): Allocation {
    a.(plan := match a.plan
               case None => None
               case Some(p) => Some(PlanRow(p.pending, Some(p.pending), Some(TargetVersion(a)))),
       files := PromoteFiles(a.files))
  }

  function MarkHealthFailed(a: Allocation): Allocation {
    match a.plan
    case None => a
    case Some(p) => a.(plan := Some(p.(applied := Some(HealthFailed))))
  }

  function ClearAppliedFiles(files: map<string, FileRow>): map<string, FileRow> {
    map p | p in files && files[p].pending.Some? :: FileRow(files[p].pending, None)
  }

  function MarkStartPending(a: Allocation): Allocation {
    a.(plan := match a.plan
               case None => None
               case Some(p) => Some(p.(applied := None)),
       files := ClearAppliedFiles(a.files))
  }

  function ClearLiveState(a: Allocation): Allocation {
    a.(plan := match a.plan
               case None => None
               case Some(p) => Some(p.(applied := None, appliedVersion := None)),
       files := ClearAppliedFiles(a.files))
  }

  function RemoveHash(a: Allocation): Allocation {
    a.(plan := None, files := map[])
  }

  // ---- The rows of a job ----

  /** Table operations, each over the rows it names. */
  class JobTable {
    var rows: Rows

    constructor (rows: Rows)
      ensures this.rows == rows
    {
      this.rows := rows;
    }

    method UpdateAllocationPlan(w: string, hash: Hash, m: FileManifest)
      requires w in rows
      modifies this
      ensures rows == old(rows)[w := UpdatePlan(old(rows)[w], hash, m)]
    {
      var a := rows[w];
      match a.plan
      case None =>
        var files := UpsertPendingFiles(a.files, m);
        rows := rows[w := a.(plan := Some(PlanRow(hash, None, Some(DefaultVersion))), files := files)];
      case Some(p) =>
        if p.pending == hash {
          assert rows == rows[w := a];
          return;
        }
        var files := UpsertPendingFiles(a.files, m);
        rows := rows[w := a.(plan := Some(p.(pending := hash)), files := files)];
    }

    /** Writes every pending digest, then clears or deletes the rows of paths no longer staged. */
    static method UpsertPendingFiles(existing: map<string, FileRow>, m: FileManifest) returns (files: map<string,
                                     FileRow>)
      ensures files == Upsert(existing, m)
    {
      files := existing;
      var left := m.Keys;
      while left != {}
        invariant left <= m.Keys
        invariant files.Keys == existing.Keys + (m.Keys - left)
        invariant forall p :: p in files ==>
                    files[p] == if p in m && p !in left
                                then FileRow(Some(m[p]), if p in existing then existing[p].applied else None)
                                else existing[p]
        decreases left
      {
        var p :| p in left;
        files := files[p := FileRow(Some(m[p]), if p in existing then existing[p].applied else None)];
        left := left - {p};
      }
      var stale := existing.Keys - m.Keys;
      while stale != {}
        invariant stale <= existing.Keys - m.Keys
        invariant forall p :: p in files <==>
                    p in m || (p in existing && (p in stale || existing[p].applied.Some?))
        invariant forall p :: p in files ==>
                    files[p] == if p in m
                                then FileRow(Some(m[p]), if p in existing then existing[p].applied else None)
                                else if p in stale then existing[p]
                                else FileRow(None, existing[p].applied)
        decreases stale
      {
        var p :| p in stale;
        if existing[p].applied.None? {
          files := files - {p};
        } else {
          files := files[p := FileRow(None, existing[p].applied)];
        }
        stale := stale - {p};
      }
      assert files == Upsert(existing, m);
    }

    /** Three statements: the plan row, the file rows, and the rows left without a digest. */
    method PromoteAllocationState(w: string)
      requires w in rows
      modifies this
      ensures rows == old(rows)[w := Promote(old(rows)[w])]
      ensures PendingFiles(rows[w]) == AppliedFiles(rows[w]) == PendingFiles(old(rows)[w])
    {
      var a := rows[w];
      if a.plan.Some? {
        var p := a.plan.value;
        var version := if a.version.Some? then a.version.value else DefaultVersion;
        a := a.(plan := Some(p.(applied := Some(p.pending), appliedVersion := Some(version))));
      }
      a := a.(files := map p | p in a.files :: a.files[p].(applied := a.files[p].pending));
      a := a.(files := DeleteOrphans(a.files));
      assert a.files == PromoteFiles(rows[w].files);
      PromotedManifests(rows[w]);
      rows := rows[w := a];
    }

    method MarkAllocationHealthFailed(w: string)
      requires w in rows
      modifies this
      ensures rows == old(rows)[w := MarkHealthFailed(old(rows)[w])]
    {
      rows := rows[w := MarkHealthFailed(rows[w])];
    }

    method PromoteAllocationWorkers(ws: seq<string>)
      requires forall w :: w in ws ==> w in rows
      modifies this
      ensures rows == PromoteRows(old(rows), ws)
    {
      assert ws[..0] == [];
      assert rows == PromoteRows(rows, []);
      for k := 0 to |ws|
        invariant rows == PromoteRows(old(rows), ws[..k])
      {
        PromoteIdempotent(old(rows)[ws[k]]);
        assert ws[..k + 1] == ws[..k] + [ws[k]];
        PromoteAllocationState(ws[k]);
        assert rows == PromoteRows(old(rows), ws[..k + 1]);
      }
      assert ws[..|ws|] == ws;
    }

    method MarkAllocationWorkersHealthFailed(ws: seq<string>)
      requires forall w :: w in ws ==> w in rows
      modifies this
      ensures rows == MarkRows(old(rows), ws)
    {
      assert ws[..0] == [];
      assert rows == MarkRows(rows, []);
      for k := 0 to |ws|
        invariant rows == MarkRows(old(rows), ws[..k])
      {
        assert ws[..k + 1] == ws[..k] + [ws[k]];
        MarkAllocationHealthFailed(ws[k]);
        assert rows == MarkRows(old(rows), ws[..k + 1]);
      }
      assert ws[..|ws|] == ws;
    }
  }

  function PromoteRows(rows: Rows, ws: seq<string>): (r: Rows)
    ensures r.Keys == rows.Keys
  {
    map w | w in rows :: if w in ws then Promote(rows[w]) else rows[w]
  }

  function MarkRows(rows: Rows, ws: seq<string>): (r: Rows)
    ensures r.Keys == rows.Keys
  {
    map w | w in rows :: if w in ws then MarkHealthFailed(rows[w]) else rows[w]
  }

  // ---- Laws of promotion ----

  lemma PromoteFilesIdempotent(files: map<string, FileRow>)
    ensures PromoteFiles(PromoteFiles(files)) == PromoteFiles(files)
  {
  }

  lemma PromoteIdempotent(a: Allocation)
    ensures Promote(Promote(a)) == Promote(a)
  {
    PromoteFilesIdempotent(a.files);
  }

  /** Promoting a row whose health gate failed gives the row that passing the gate would have left. */
  lemma PromoteAfterFailure(a: Allocation)
    ensures Promote(MarkHealthFailed(Promote(a))) == Promote(a)
    ensures Promote(MarkHealthFailed(a)) == Promote(a)
  {
    PromoteFilesIdempotent(a.files);
  }

  // ---- Hashes match manifests ----

  /** Plan hashes are the aggregates of the file rows beside them, and every file row holds a digest. */
  ghost predicate Consistent(a: Allocation) {
    && (forall p :: p in a.files ==> a.files[p].pending.Some? || a.files[p].applied.Some?)
    && match a.plan
       case None => a.files == map[]
       case Some(p) =>
         && p.pending == Aggregate(PendingFiles(a))
         && (p.applied == None ==> AppliedFiles(a) == map[])
         && (p.applied.Some? && p.applied.value != HealthFailed ==> p.applied.value == Aggregate(AppliedFiles(a)))
  }

  lemma UpsertPending(a: Allocation, b: Allocation, m: FileManifest)
    requires b.files == Upsert(a.files, m)
    ensures PendingFiles(b) == m && AppliedFiles(b) == AppliedFiles(a)
  {
  }

  /** Staging keeps hashes and manifests together. */
  lemma UpdatePlanConsistent(a: Allocation, m: FileManifest)
    requires Consistent(a)
    ensures Consistent(UpdatePlan(a, Aggregate(m), m))
  {
    hide Aggregate;
    var b := UpdatePlan(a, Aggregate(m), m);
    if a.plan.None? || a.plan.value.pending != Aggregate(m) {
      UpsertPending(a, b, m);
      if a.plan.None? {
        assert AppliedFiles(a) == map[];
      }
    }
  }

  /** The stored pending manifest is the staged one exactly when the two do not collide in the aggregate. */
  lemma StagedManifestRecorded(a: Allocation, m: FileManifest)
    requires Consistent(a) && a.plan.Some?
    ensures PendingFiles(UpdatePlan(a, Aggregate(m), m)) == m
            <==> Aggregate(PendingFiles(a)) != Aggregate(m) || PendingFiles(a) == m
  {
    hide Aggregate;
    var b := UpdatePlan(a, Aggregate(m), m);
    if a.plan.value.pending != Aggregate(m) {
      UpsertPending(a, b, m);
    }
  }

  lemma PromotedManifests(a: Allocation)
    ensures PendingFiles(Promote(a)) == PendingFiles(a)
    ensures AppliedFiles(Promote(a)) == PendingFiles(a)
  {
  }

  /** Promotion keeps them together and leaves nothing to roll out. */
  lemma PromoteConsistent(a: Allocation)
    requires Consistent(a)
    ensures Consistent(Promote(a))
    ensures Diff(AppliedFiles(Promote(a)), PendingFiles(Promote(a))) == {}
  {
    hide Aggregate;
    PromotedManifests(a);
    if a.plan.None? {
      assert Promote(a).files == map[];
    }
    DiffEmpty(AppliedFiles(Promote(a)), PendingFiles(Promote(a)));
  }

  lemma ClearedManifests(files: map<string, FileRow>, a: Allocation)
    requires a.files == ClearAppliedFiles(files)
    ensures AppliedFiles(a) == map[]
    ensures PendingFiles(a) == map p | p in files && files[p].pending.Some? :: files[p].pending.value
  {
  }

  /** Every other operation keeps them together too. */
  lemma OtherOperationsConsistent(a: Allocation)
    requires Consistent(a)
    ensures Consistent(MarkHealthFailed(a))
    ensures Consistent(MarkStartPending(a))
    ensures Consistent(ClearLiveState(a))
    ensures Consistent(RemoveHash(a))
  {
    hide Aggregate;
    assert PendingFiles(MarkHealthFailed(a)) == PendingFiles(a);
    assert AppliedFiles(MarkHealthFailed(a)) == AppliedFiles(a);
    ClearedManifests(a.files, MarkStartPending(a));
    ClearedManifests(a.files, ClearLiveState(a));
    if a.plan.None? {
      assert ClearAppliedFiles(a.files) == map[];
    }
  }

  // ---- Versions are stored in normal form ----

  /** SetAllocationVersion, and the version a build writes when it inserts or replaces the row. */
  function SetVersion(a: Allocation, raw: string): Allocation {
    a.(version := Some(Versions.Normalize(raw)))
  }

  predicate IsNormal(v: Option<string>) {
    v.Some? ==> Versions.Normalize(v.value) == v.value
  }

  predicate NormalVersions(a: Allocation) {
    IsNormal(a.version) && (a.plan.Some? ==> IsNormal(a.plan.value.appliedVersion))
  }

  /** Every operation on a row keeps its versions in normal form. */
  lemma VersionsStayNormal(a: Allocation, raw: string, hash: Hash, m: FileManifest)
    requires NormalVersions(a)
    ensures NormalVersions(SetVersion(a, raw))
    ensures NormalVersions(UpdatePlan(a, hash, m))
    ensures NormalVersions(Promote(a))
    ensures NormalVersions(MarkHealthFailed(a))
    ensures NormalVersions(MarkStartPending(a))
    ensures NormalVersions(ClearLiveState(a))
    ensures NormalVersions(RemoveHash(a))
  {
    hide Versions.Normalize, Upsert, PromoteFiles, ClearAppliedFiles;
    Versions.NormalizeIdempotent(raw);
    Versions.DefaultIsNormal();
  }

  // ---- What still needs work ----

  predicate Active(a: Allocation) {
    !a.removed && !a.disabled
  }

  /** GetNewAllocations: a plan that was never applied. */
  predicate IsNew(a: Allocation) {
    Active(a) && a.plan.Some? && a.plan.value.applied.None?
  }

  predicate ContentPending(a: Allocation) {
    a.plan.Some? && a.plan.value.applied.Some? && a.plan.value.applied.value != a.plan.value.pending
  }

  function StoredVersion(a: Allocation): string {
    match a.plan
    case Some(PlanRow(_, _, Some(v))) => v
    case _ => DefaultVersion
  }

  /** Versions compared as stored, as the SQL does. */
  predicate VersionPending(a: Allocation) {
    StoredVersion(a) != TargetVersion(a)
  }

  /** Versions compared after normalisation, as AllocationNeedsVersionRollout does. */
  predicate NeedsVersion(a: Allocation) {
    Versions.Normalize(StoredVersion(a)) != Versions.Normalize(TargetVersion(a))
  }

  /** Active allocations a non-force deploy considers. */
  predicate NeedsWork(a: Allocation) {
    Active(a) && (IsNew(a) || ContentPending(a) || VersionPending(a))
  }

  /** One allocation's contribution to JobNeedsRollout. */
  predicate NeedsRollout(a: Allocation) {
    !a.removed && (a.plan.None? || IsNew(a) || ContentPending(a) || VersionPending(a))
  }

  predicate JobNeedsRollout(rows: Rows) {
    exists w :: w in rows && NeedsRollout(rows[w])
  }

  /** Staged, and the recorded version is the target version. */
  predicate AtVersion(a: Allocation) {
    && a.plan.Some?
    && (if a.plan.value.appliedVersion.Some? then a.plan.value.appliedVersion.value else "0.0.0")
       == (if a.version.Some? then a.version.value else "0.0.0")
  }

  /** What is recorded as deployed is what is staged, at the target version. */
  predicate UpToDate(a: Allocation) {
    AtVersion(a) && a.plan.value.applied == Some(a.plan.value.pending)
  }

  /** The four queries of a deploy, told from the recorded state. A disabled allocation that was never deployed does
      not ask for a rollout, unless its version is another. */
  lemma QueriesExactly(a: Allocation)
    ensures NeedsRollout(a) <==>
              !a.removed && !UpToDate(a) && !(a.disabled && AtVersion(a) && a.plan.value.applied == None)
    ensures a.plan.Some? ==> (NeedsWork(a) <==> !a.removed && !a.disabled && !UpToDate(a))
    ensures IsNew(a) <==> !a.removed && !a.disabled && a.plan.Some? && a.plan.value.applied == None
    ensures ContentPending(a) <==>
              a.plan.Some? && a.plan.value.applied != None && a.plan.value.applied != Some(a.plan.value.pending)
  {
  }

  /** Stopped by hand or taken down, a staged allocation is new again: same content staged, nothing deployed. What is
      taken down also forgets the version it ran. */
  lemma NewAgain(a: Allocation)
    requires Active(a) && a.plan.Some?
    ensures IsNew(MarkStartPending(a)) && IsNew(ClearLiveState(a))
    ensures PendingFiles(MarkStartPending(a)) == PendingFiles(a) == PendingFiles(ClearLiveState(a))
    ensures AppliedFiles(MarkStartPending(a)) == map[] == AppliedFiles(ClearLiveState(a))
    ensures MarkStartPending(a).plan.value.pending == a.plan.value.pending == ClearLiveState(a).plan.value.pending
    ensures StoredVersion(MarkStartPending(a)) == StoredVersion(a) && StoredVersion(ClearLiveState(a)) == "0.0.0"
  {
    ClearedManifests(a.files, MarkStartPending(a));
    ClearedManifests(a.files, ClearLiveState(a));
  }

  /** Promotion settles an allocation. */
  lemma PromotedNeedsNothing(a: Allocation)
    ensures !NeedsWork(Promote(a)) || a.plan.None?
    ensures a.plan.Some? ==> !NeedsRollout(Promote(a))
  {
  }

  /** A failed health gate leaves it in need of work, and not as a new allocation. */
  lemma HealthFailedNeedsWork(a: Allocation)
    requires Active(a) && a.plan.Some? && a.plan.value.pending != HealthFailed
    ensures NeedsWork(MarkHealthFailed(a)) && !IsNew(MarkHealthFailed(a)) && NeedsRollout(MarkHealthFailed(a))
  {
  }

  /** A rename that keeps path order is invisible to a deploy. */
  lemma RenameNotDeployed(digest: string, version: Option<string>)
    ensures var before, after := map["a" := digest], map["b" := digest];
            var blank := Allocation(false, false, version, None, map[]);
            var live := Promote(UpdatePlan(blank, Aggregate(before), before));
            var staged := UpdatePlan(live, Aggregate(after), after);
            staged == live && !NeedsRollout(staged) && PendingFiles(staged) != after
  {
    var before, after := map["a" := digest], map["b" := digest];
    RenameKeepsAggregate(digest);
    hide Aggregate;
    var blank := Allocation(false, false, version, None, map[]);
    var plan := UpdatePlan(blank, Aggregate(before), before);
    UpsertPending(blank, plan, before);
    PromotedManifests(plan);
  }
}
