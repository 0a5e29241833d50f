# Kive, verified

Kive deploys jobs to workers without an agent: it keeps a catalog of allocations and their hashes, rolls changes
out in batches behind health gates, reads its settings from a small block language, and lets job hooks coordinate
through named semaphores. This project models those parts in Dafny and proves what they promise over every input,
every run and every interleaving.

| part | files | main results |
|---|---|---|
| configuration language | `ConfText`, `ConfNumber`, `ConfAst`, `ConfLexer`, `ConfParser`, `ConfEmit` (functions); `ConfLexerImpl`, `ConfParserImpl`, `ConfEmitImpl` (the stateful forms); `ConfTokens`, `ConfSpelling`, `ConfRoundTrip`, `ConfCanonical`, `ConfLanguage`, `ConfDiagnostics` (proofs) | which sources are accepted, exactly, and as which trees; printing and parsing are inverse; printing is a canonical form; accepted trees obey every limit |
| typed settings | `JobsConf`, `KiveConfig`, `KiveLanguage`, `KiveRoundTrip`, `KiveSizes` | which files are accepted, exactly, and with which settings; per-job settings survive unchanged; kive.conf comes back normalised, exactly when it is acceptable |
| catalog rows | `Manifest`, `Versions`, `Catalog` | stored hashes stay the aggregates of stored manifests |
| rollout of a job | `Batches`, `RolloutOrder`, `RolloutPolicy`, `Rollout`, `RolloutImpl`; `RolloutFacts`, `DeployTheorems`, `RolloutPacing`, `DeployAgenda`, `DryRun`, `ForcedPlan`, `Retry`, `Histories` (proofs) | convergence and safe resume over whole histories, rolling safety, plan equals execution, what a retry does |
| a whole run | `Fleet`, `FleetImpl`, `FleetJobs`, `FleetConvergence` | what a run does to each job, exactly; generation safety; runs that fail and then one that is clean end as one clean run |
| concurrency | `Semaphore`, `SemaphoreImpl`, `BoundedWaiting`, `SharedLocation` | FIFO semaphore with bounded waiting, and shared-root lock, under every interleaving |
| encoders and text | `JobDigest`, `ShellQuote`, `OneShot`, `DeployOneShots`, `EditDistance`; `Strings`, `StringOrder`, `Prelude` | digest bytes, shell words, the one-shot rule, edit distance |

How the outside enters. SQL tables are maps from key to row and NULL is `None`. SSH, rsync, lifecycle commands,
hooks and health probes are outcomes supplied to a run (`Rollout.World`, `Fleet.Inputs`). A run also keeps a log of
what it did to each batch, which the theorems speak about. MD5 is taken as injective, so a content hash is the list
of digests it was computed from. A source text is a sequence of Unicode scalar values, with byte sizes computed as
in UTF-8; in `JobDigest` and `EditDistance` text is bytes. Membership of the Unicode letter and digit tables, glob
matching, path joining and case folding of candidates are arbitrary: nothing depends on which they are.

Stateful code is modelled by classes and loops whose contracts tie the new state to a function of the old one, and
the theorems are about that function. `hide` statements only narrow what the solver sees.

## Findings

Properties that are false of the code, each with an input that shows it and the exact condition under which it
holds. Glob matching and lower-casing are arbitrary here, so three of the inputs state what they need of them.

- *A new manifest is rolled out.* The aggregate hash covers digests in path order but not paths, so a rename that
  keeps the order is never deployed (`Catalog.RenameNotDeployed`). A staged manifest is recorded if and only if it
  does not collide with the recorded one (`Catalog.StagedManifestRecorded`).
- *The dry run reports the action taken.* It does so, for start, restart, reload, sync and none alike, if and only
  if not merely the spelling of the version changed: SQL compares stored text, the dry run compares normalised text
  (`DryRun.PlanEqualsExecution`, shown by `DryRun.RespelledVersionTaken`). Both writers of target versions
  (`data/allocation_version.go:15`, `build/build_allocations.go:95-104`) normalise, and every operation and every
  sequence of deploys keeps versions in normal form, so from rows they wrote the plan stays exact
  (`DryRun.PlanStaysExact`).
- *The dry run says which allocations need a rollout.* For an active allocation with a hash row it does so if and only
  if not merely hook files changed, which are synced and announced as no rollout while the job needs one, and not
  merely the spelling of its version (`DryRun.PlanNeedsExactly`, shown by `DryRun.HookChangeNotAnnounced`).
- *Under force the dry run reports what is performed.* It does so if and only if the allocation is new and the policy
  is never, or it is not new and its content is pending, its version is not, or its files alone would give the same
  action (`ForcedPlan.ForcedPlanAgreesExactly`); a new one is announced as a start, then started and acted on again
  (`ForcedPlan.StartedTwice`).
- *A retry repeats the action whose health gate failed.* A marked row shows no file difference, so the retry depends
  on the policy alone; it repeats the action if and only if the guards of the first attempt did not come to anything
  else (`Retry.RetryRepeatsExactly`, over two runs `Retry.RetryOverRuns`). *A row whose gate failed is promoted only
  behind a gate* holds if and only if the policy is not never (`Retry.RetryGatedExactly`): under never, a start whose
  gate failed is promoted by the next deploy, which acts on nothing and asks no gate (`Retry.UngatedPromotion`).
- *Workers are rolled out in the stored order* (public-docs/guide/rolling-deploy.md:31). They are if the stored list names
  exactly the workers of the phase, each once; any other list is disregarded for the catalog's order, so also one for
  the whole job where only some of its workers change (`RolloutOrder.OrderChosen`, shown by
  `RolloutOrder.WideOrderDisregarded`).
- *Columns of diagnostics count from one.* They do unless a line break follows a backslash in a string, which is
  reported on the next line in column zero (`ConfDiagnostics.ColumnZeroExactly`, shown by
  `ConfDiagnostics.ColumnZero`).
- *No worker is ahead of the catalog's generation.* It can be if and only if the commit fails after a clean metadata
  sync reached some worker (`Fleet.RunAligned`, shown by `Fleet.CommitFailureMisaligns`).
- *A run that reports an error is not clean.* The run collects its errors, and with something deployable it is clean
  if and only if none of them concerns the jobs (failed staging, failed reconciliation, a failed job), no pre-deploy
  hook aborted it and no staging was cancelled (`Fleet.CleanWhenReported`). So soft pre-deploy errors, lost hook
  data, a failed metadata sync, failed post-deploy hooks and failed records leave it clean with the raised generation
  (`Fleet.SyncFailureIsClean`), and with nothing deployable so does a failed reconciliation
  (`Fleet.ReconcileFailureCountsAsClean`).
- *All callers inside the lock find their root.* Bucket discovery assigns the location without the lock, and
  `hooks/run.go:78` calls it for every hook, inside too. The promise is kept throughout a run if and only if every
  such assignment made while someone is inside names the root they have (`SharedLocation.PromiseKeptExactly`, shown
  by `SharedLocation.AssignedUnderneath`). What is assigned inside is forgotten when the last caller leaves.
- *A timed-out acquire holds nothing.* A cancel reaches an open wait if and only if it is not granted yet
  (`Semaphore.CancelReachesExactly`, shown by `Semaphore.TimeoutAfterGrant`).
- *A granted acquire holds until it releases.* A hold belongs to the allocation, whichever of its acquires releases
  it. It lasts over a run if and only if each release of the allocation meets a queue in which one of its waits has
  none ahead of it but waits of allocations that still hold (`Semaphore.HoldsUntilReleased`,
  `Semaphore.ReleaseEndsHold`, shown by `Semaphore.TwoGrantsOneHold`).
- *One allocation of a kive invocation is the one-shot.* True of each hook run (`OneShot.ExactlyOneShot`); over a
  deploy, failing or not, there are two for the restart event if and only if something is reloaded and the deploy
  gets to the hooks of a restart batch, because batch indexes start again (`DeployOneShots.DeployOneShotCount`, shown
  by `DeployOneShots.TwoOneShots`).
- *The hint is the least of the closest candidates.* It is if and only if the empty string is not among the closest
  (`EditDistance.SuggestClosest`, shown by `EditDistance.EmptyCandidateTies`); no caller in the repository passes an
  empty candidate.
- *A written configuration can be read back.* An integer literal below -1 is refused although it can be written, so
  a configuration survives if and only if it has none and its profile can name a file (`KiveRoundTrip.RoundTrip`,
  shown by `KiveSizes.BelowMinusOneRefused`). The error calls such a literal out of range; the code is followed.

## Model

| member | source | states |
|---|---|---|
| `ConfRoundTrip.RoundTrip` | conf/emit.go:28-127 | for every tree within the limits, printed with any blank indent and fitting the source limit, parsing the text succeeds with the same tree up to positions and optional semicolons |
| `ConfCanonical.ParseObeysLimits` | conf/parser.go:21-326 | every accepted source gives a tree within the depth, statement, argument, identifier and string limits, with lexable names and NUL-free strings |
| `ConfCanonical.Canonical` | conf/emit.go:25-51 | for every accepted source whose printed form fits, re-parsing gives the same tree and printing again gives the identical text |
| `ConfLanguage.AcceptedExactly` | conf/parser.go:21-326 | a source is accepted if and only if it is at most a megabyte, holds no NUL and is a source file within the limits: statements and version each with or without their semicolon, tokens in any spelling, any blanks and comments between them |
| `ConfLanguage.AcceptedAs` | conf/parser.go:21-326 | it is then accepted as the tree that the source file stands for, semicolons of calls included, up to positions |
| `ConfLanguage.AcceptedDenotes` | conf/parser.go:99-326 | every accepted source is some such source file, whose tree is the one returned |
| `ConfTokens.ParsesTokens` | conf/parser.go:99-326 | any text whose tokens are those of a source file within the limits parses to its tree |
| `ConfSpelling.ScansExactly` | conf/lexer.go:90-329 | the scanner reads a text as some tokens if and only if the text is those tokens in some spelling, each apart from what follows, with gaps of blanks and comments between them |
| `ConfDiagnostics.DiagnosticPoints` | conf/lexer.go:132-329 | every diagnostic of the scanner names the start of the token that does not scan or, inside a string, the NUL, the end of the text after a backslash, or the character after the backslash |
| `ConfDiagnostics.ColumnZeroExactly` | conf/lexer.go:297-316 | its column is below one if and only if it is a line break after a backslash, reported in column zero of the next line |
| `ConfDiagnostics.ColumnZero` | conf/lexer.go:297-316 | a concrete such text |
| `ConfEmit.EmitIgnoresPositions` | conf/emit.go:52-106 | trees equal up to positions and semicolons print to the same text |
| `ConfEmit.TopLayout` | conf/emit.go:28-73 | the printed text is one line per call and per opening and closing brace, each indented once per block around it, with an empty line between two adjacent blocks at the top and nowhere else |
| `ConfLexer.PosStep` | conf/lexer.go:71-88 | consuming one character moves the position from that of a prefix to that of the next prefix, with line and column defined from the text alone |
| `ConfLexer.Next` | conf/lexer.go:132-182 | every token other than end of file consumes input and stays within it, which is why parsing terminates |
| `ConfLexerImpl.Lexer.Advance` | conf/lexer.go:71-84 | the line and column fields stay the position of the offset |
| `ConfLexerImpl.Lexer.SkipSpaceAndComments` | conf/lexer.go:90-130 | the offset moves over exactly the white space and line comments before the next token |
| `ConfLexerImpl.Lexer.ScanIdent` | conf/lexer.go:207-230 | token, final offset or diagnostic agree with the scanning function, keywords included |
| `ConfLexerImpl.Lexer.ScanNumber` | conf/lexer.go:232-270 | token, final offset or diagnostic agree with the scanning function |
| `ConfLexerImpl.Lexer.ScanString` | conf/lexer.go:272-329 | decoded text, final offset or positioned diagnostic agree with the scanning function |
| `ConfLexerImpl.Lexer.Next` | conf/lexer.go:132-182 | the stateful lexer refines the token function from every offset |
| `ConfParserImpl.Parser.ParseValue` | conf/parser.go:285-326 | value, lookahead, counters or diagnostic agree with the parsing function |
| `ConfParserImpl.Parser.ParseCallTail` | conf/parser.go:227-283 | the argument loop with its limit, trailing semicolon and diagnostics refines the recursive function |
| `ConfParserImpl.Parser.ParseBlock` | conf/parser.go:192-225 | the body loop refines the recursive function and restores the depth |
| `ConfParserImpl.Parser.ParseStmt` | conf/parser.go:151-190 | block or call, counted against the statement limit, as the parsing function gives it |
| `ConfParserImpl.Parser.ParseFile` | conf/parser.go:99-149 | optional version directive and all statements, as the parsing function gives them |
| `ConfParserImpl.Parse` | conf/parser.go:21-53 | size and NUL checks, then the parse: same result and same positioned error as the function, for every source |
| `ConfParserImpl.NulPosition` | conf/parser.go:21-53 | the position reported for a NUL is its line and byte column |
| `ConfEmitImpl.EscapeString` | conf/emit.go:108-127 | the builder loop writes the escaped text |
| `ConfEmitImpl.Emitter.EmitStmt` | conf/emit.go:52-73 | appends exactly the indented text of the statement |
| `ConfEmitImpl.Emit` | conf/emit.go:28-50 | the builder ends with the text of the whole file, blank lines between adjacent blocks included |
| `ConfNumber.ItoaRoundTrip` | conf/parser.go:328-347 | every 64-bit integer's decimal text lexes as a number and parses back to it |
| `JobsConf.ParseBucketJobsConf` | bucket/jobs_conf_block.go:15-63 | the nested loops over statements compute the lowering, with its positioned errors |
| `JobsConf.EmitBucketJobsConf` | bucket/jobs_conf_block.go:108-129 | the text printed lists jobs and keys in sorted order |
| `JobsConf.JobsRoundTrip` | bucket/jobs_conf_block.go:15-129 | maps of per-job settings with identifier keys survive printing and parsing unchanged |
| `JobsConf.AcceptsExactly` | bucket/jobs_conf_block.go:15-63 | a file is accepted if and only if it parses and holds only named job blocks of calls with one plain argument; each job is then its last block, and each setting the text of its last call there |
| `KiveConfig.LowerBlock` | bucket/kive_conf_block.go:190-480 | a block's body loop sets each named setting once, refuses unknown, repeated and malformed ones |
| `KiveConfig.ParseKiveConf` | bucket/kive_conf_block.go:69-124 | the statement loop computes the lowering: no identifiers, no repeated or unknown blocks, no legacy flat settings |
| `KiveLanguage.AcceptsExactly` | bucket/kive_conf_block.go:69-480 | a file is accepted if and only if it parses, its blocks are known ones, each there once, without an identifier and of calls only, no top-level call is a setting of older files, and every call sets a setting of its place, none twice, to a value its arguments give; those are then present with these values and the others zero |
| `KiveLanguage.GivesExactly` | conf/helpers.go:98-183 | for each of the 26 settings, the argument lists it accepts and the value each gives |
| `KiveLanguage.ProfileExactly` | bucket/jobs_profile.go:13-40 | which profiles are accepted, character by character |
| `KiveRoundTrip.RoundTrip` | bucket/kive_conf_block.go:483-591 | a printed configuration is read back if and only if it is acceptable, then equals its normal form, with exactly the printed settings reported present |
| `KiveRoundTrip.Fixpoint` | bucket/kive_conf_block.go:483-591 | the normal form of an acceptable configuration is acceptable and normal, and if the configuration could be printed, its normal form is read back unchanged whenever the text fits |
| `KiveRoundTrip.NormalPrintable` | bucket/kive_conf_block.go:483-591 | the normal form of a printable configuration is printable |
| `KiveSizes.BelowMinusOneRefused` | conf/helpers.go:117-141 | a concrete configuration that is written, within the limits, and then refused |
| `KiveSizes.BriefFits` | bucket/kive_conf_block.go:483-591 | a configuration whose printed arguments are at most 100 characters each fits the source limit |
| `KiveRoundTrip.ReadsBack` | bucket/kive_conf_block.go:135-480 | for each of the 26 settings, what is printed is read back as the normal value or refused |
| `KiveRoundTrip.RangeStable` | bucket/port_range.go:72-102 | a canonical port range parses back to its bounds |
| `Manifest.DiffFileManifests` | data/file_manifest.go:13-33 | the two loops and the sort give the sorted set of added, modified and deleted paths |
| `Manifest.DiffEmpty` | data/file_manifest.go:13-33 | nothing differs if and only if the manifests are equal |
| `Manifest.RenameKeepsAggregate` | utils/hash.go:61-143 | two different manifests with one aggregate hash |
| `Manifest.AggregateExactly` | utils/hash.go:61-143 | two manifests share a hash if and only if their digests, each in the order of its own paths, are the same |
| `Manifest.ContentChangeNoticed` | utils/hash.go:61-143 | a change of content without one of paths always changes the hash |
| `Catalog.JobTable.UpdateAllocationPlan` | data/hash_allocation.go:29-63 | new plan rows get a pending hash, the default version and the staged files; an unchanged hash changes nothing |
| `Catalog.JobTable.UpsertPendingFiles` | data/hash_allocation.go:65-152 | the loops over staged and stale paths leave exactly the staged pending digests, keep applied ones and no empty row |
| `Catalog.JobTable.PromoteAllocationState` | data/hash_allocation.go:154-176 | the three statements (plan row, file rows, orphans) compose to promotion: afterwards pending and applied manifests are the manifest that was pending |
| `Catalog.JobTable.PromoteAllocationWorkers` | deploy/hashes.go:60-79 | exactly the named workers' rows are promoted |
| `Catalog.JobTable.MarkAllocationWorkersHealthFailed` | deploy/hashes.go:81-95 | exactly the named workers' rows get the sentinel |
| `Catalog.PromoteIdempotent` | data/hash_allocation.go:154-176 | promoting twice is promoting once |
| `Catalog.PromoteAfterFailure` | data/hash_allocation.go:154-190 | promoting a row whose gate failed gives what passing would have left |
| `Catalog.UpdatePlanConsistent` | data/hash_allocation.go:27-63 | staging keeps each plan hash the aggregate of the files beside it and no row without a digest |
| `Catalog.PromoteConsistent` | data/hash_allocation.go:154-176 | promotion keeps that, and afterwards the manifest difference is empty |
| `Catalog.OtherOperationsConsistent` | data/hash_allocation.go:15-224 | marking, clearing and removing keep it too |
| `Catalog.VersionsStayNormal` | data/allocation_version.go:14-21 | setting a version normalises it, and every operation on a row keeps target and applied versions in normal form |
| `Versions.NormalizeExactly` | data/version.go:16-23 | blank text and "unknown" in any case stand for the default version, any other text for itself without the space at its ends |
| `Catalog.StagedManifestRecorded` | data/hash_allocation.go:29-63 | the pending manifest is the staged one if and only if the two do not collide in the aggregate |
| `Catalog.RenameNotDeployed` | utils/hash.go:61-143 | a concrete rename that staging does not notice |
| `Catalog.PromotedNeedsNothing` | data/job.go:361-448 | a promoted allocation is neither new, updated nor version-pending |
| `Catalog.HealthFailedNeedsWork` | data/job.go:361-448 | a failed gate leaves the allocation updated, not new, and in need of rollout |
| `Catalog.QueriesExactly` | data/job.go:361-448 | an allocation needs a rollout, needs work, is new or has content pending exactly by what is recorded as staged and as deployed |
| `Catalog.NewAgain` | data/hash_allocation.go:192-225 | stopped by hand or taken down, a staged allocation is new again with the same content staged; what is taken down forgets its version too |
| `Batches.EffectiveBatchSize` | deploy/rollout.go:17-29 | between one and the total, within the request and the hard cap, and smaller than the total only because of one of them |
| `Batches.SplitFlatten` | hooks/batch.go:63-80 | the batches concatenate to the input in order |
| `Batches.SplitSize` | hooks/batch.go:63-80 | no batch is empty or too large, and all but the last are full |
| `Batches.SplitCount` | hooks/batch.go:52-60 | there are exactly the computed number of batches |
| `Batches.SplitWorkerBatches` | hooks/batch.go:63-80 | the loop gives those batches for every requested size, zero and negative included |
| `RolloutOrder.ResolveOrderPermutes` | rollout/order.go:126-167 | stored, invalid or missing order: the result lists every candidate exactly once |
| `RolloutOrder.OrderChosen` | rollout/order.go:59-167 | a stored order that names exactly the candidates, each once, is followed to the letter; otherwise those the catalog lists come in its order and the rest after them as given |
| `RolloutOrder.WideOrderDisregarded` | rollout/order.go:126-167 | a concrete order for three workers, disregarded when two of them are candidates and followed when all are |
| `RolloutPolicy.OnlyHooksMeansAll` | deploy/rollout_policy.go:102-108 | counting matches means every changed path is a hook file |
| `RolloutPolicy.ResolvedExactly` | deploy/rollout_policy.go:20-74 | for every policy, when the action is sync, restart or reload, by the changed paths and the patterns that match them |
| `RolloutPolicy.ReportedExactly` | deploy/rollout_policy.go:20-74 | which paths are reported as the reason |
| `RolloutFacts.UpdateActionExactly` | deploy/allocations.go:78-109 | the same for a row of the catalog: by the files whose staged digest is not the deployed one, and by what is pending |
| `RolloutImpl.Deployer.UpdateAllocationHashes` | deploy/hashes.go:29-58 | every allocation that is not removed is staged, no other row changes |
| `RolloutImpl.Deployer.PromoteThenHealth` | deploy/hashes.go:97-114 | the batch is promoted before its gate and marked as a whole if the gate fails |
| `RolloutImpl.Deployer.RolloutBatches` | deploy/rollout.go:69-104 | the batch loop's rows, outcome and event log are those of the recursive specification |
| `RolloutImpl.Deployer.HandleNewAllocations` | deploy/allocations.go:21-46 | the start phase over the new allocations |
| `RolloutImpl.Deployer.HandleUpdatedAllocations` | deploy/allocations.go:48-147 | reload batches, then restart batches, over allocations classified by policy |
| `RolloutImpl.Deployer.FinalizeJobDeploy` | deploy/job_deploy.go:140-145 | every allocation that is not removed ends promoted |
| `RolloutImpl.Deployer.DeployJob` | deploy/job_deploy.go:20-46 | the whole deploy refines its specification, with or without force |
| `DeployTheorems.SuccessPromotesAll` | deploy/job_deploy.go:20-46 | a successful deploy that had work ends with every row promoted, whatever happened on the way, and nothing needing rollout |
| `DeployTheorems.FailureKeepsTarget` | deploy/job_deploy.go:20-46 | a failed non-force deploy changes no final state and leaves the job in need of rollout |
| `DeployTheorems.Convergence` | deploy/job_deploy.go:20-46 | any finite sequence of failed non-force deploys and then a success, forced or not, ends in exactly the rows of a single success, and nothing needs rollout |
| `DeployTheorems.RepeatIsIdle` | deploy/rollout.go:194-237 | deploying the same content again after a success does nothing and changes nothing |
| `DeployTheorems.SafeResume` | deploy/allocations.go:163-186 | after a failure the candidates are exactly those that needed work and whose batch did not pass |
| `DeployTheorems.ActsOnNeedy` | deploy/allocations.go:163-186 | a non-force deploy acts only on allocations that need work |
| `DeployTheorems.PassedIsSettled` | deploy/hashes.go:94-114 | an allocation whose gate passed is promoted with nothing pending |
| `DeployTheorems.SettledStays` | data/job.go:361-448 | over any later non-force runs it is never acted on and its row never changes while its content and version stay the same |
| `DeployTheorems.RunsConsistent` | data/hash_allocation.go:27-224 | over any sequence of deploys, forced or not, failing or not, stored hashes stay the aggregates of stored manifests |
| `DeployTheorems.RunsKeepNormal` | data/hash_allocation.go:154-176 | over any sequence of deploys stored versions stay in normal form |
| `DeployTheorems.GoodWorldSucceeds` | deploy/job_deploy.go:20-46 | a deploy succeeds when every outside step does |
| `RolloutPacing.RollingSafety` | deploy/rollout.go:69-190 | at every moment of every deploy the allocations between their action and a passed gate lie in one batch, of at most `max_concurrent_starts` if starting and that is set, of at most `max_concurrent_restarts`, or one if that is not set, if reloading or restarting, and of at most the hard cap if set |
| `RolloutPacing.FailedDeployStops` | deploy/job_deploy.go:20-46 | a failed deploy, forced or not, stops at one batch of its start, reload or restart phase: earlier batches and phases are promoted, that batch is unchanged or wholly marked, every other row is as the earlier phases left it |
| `RolloutPacing.BatchesStop` | deploy/rollout.go:150-185 | a failure at some batch leaves earlier ones promoted, that one unchanged or wholly marked, later ones untouched; success means the end was reached |
| `DeployAgenda.DeployWalksAgenda` | deploy/job_deploy.go:20-46 | every deploy, forced or not, failing or not, walks one list of batches that its rows and settings fix in advance: it succeeds if and only if all pass, an event is in its log if and only if it happens to a batch before which all passed, and its rows are what those events make of them |
| `DeployAgenda.AgendaContents` | deploy/allocations.go:21-147 | that list is the starts, then the reloads, then the restarts, each of exactly the workers whose rows ask for it, in rollout order, in batches that but for the last are as large as the settings allow |
| `DryRun.LifecycleActions` | deploy/allocations.go:21-147 | the exact actions a successful run, forced or not, performs on each allocation |
| `DryRun.TakenOnRow` | deploy/allocations.go:48-147 | in a successful non-force run the action taken on an active allocation follows from its own row: start if new, else its classified action if it needs work, else none |
| `DryRun.TakenShows` | deploy/job_deploy.go:20-46 | start, reload and restart are exactly the worker's logged actions, and the applied hash or version changes if and only if some action, sync included, is taken |
| `DryRun.PlanEqualsExecution` | deploy/dry_run.go:280-347 | for each active allocation with a hash row the planned action, of all five, is the one taken if and only if not merely the spelling of its version changed |
| `DryRun.PlanIsExact` | deploy/dry_run.go:280-347 | with versions stored in normal form plan and execution agree for every active allocation |
| `DryRun.PlanStaysExact` | deploy/dry_run.go:280-347 | from rows with normal versions the plan is exact after any sequence of deploys |
| `DryRun.RespelledVersionTaken` | data/allocation_version.go:69-110 | a concrete row and run: planned as nothing to do, yet restarted, reloaded or synced by policy, with the recorded version changed |
| `DryRun.PlanNeedsExactly` | deploy/dry_run.go:280-347 | an active allocation with a hash row is announced as needing a rollout if and only if it makes the job need one, unless only hook files changed or nothing but the spelling of its version did |
| `DryRun.HookChangeNotAnnounced` | deploy/dry_run.go:310-319 | a row and run, given that the hooks pattern matches its file: no rollout announced, the job needs one, and the run changes what is recorded |
| `Retry.RetryAction` | deploy/rollout_policy.go:20-74 | the action of a row whose gate failed, for every policy and whatever had changed |
| `Retry.RetryRepeatsExactly` | deploy/rollout_policy.go:20-108 | it is the first attempt's action if and only if that attempt's guards came to what the policy does without changed files; a start never repeats |
| `Retry.OnlyItsAction` | deploy/allocations.go:21-147 | every event of a non-force deploy, failing or not, carries the own action of each of its workers, which needed work |
| `Retry.FailedAttempt` | deploy/hashes.go:97-114 | a worker whose gate failed is left marked, after its own action, by a failed run |
| `Retry.RetryOverRuns` | deploy/rollout_policy.go:20-108 | over a failed run and a successful retry the failed action is performed again if and only if those guards hold |
| `Retry.RetryGatedExactly` | deploy/job_deploy.go:20-46 | a successful retry passes a gate for a marked row if and only if the policy is not never, and ends with it promoted either way |
| `Retry.UngatedPromotion` | deploy/job_deploy.go:140-145 | a concrete pair of runs: under policy never a failed start is promoted without action or gate |
| `DryRun.ForceActsAgain` | deploy/allocations.go:163-186 | under force an allocation just started is acted on again in the same run |
| `ForcedPlan.ForcedPlanAgreesExactly` | deploy/dry_run.go:280-347 | under force something is planned for every active allocation with a hash row, and it is what is performed if and only if the stated guards of the row and the policy hold |
| `ForcedPlan.StartedTwice` | deploy/allocations.go:163-186 | a concrete forced deploy: announced as a start, started and restarted |
| `Histories.HistoryConsistent` | data/hash_allocation.go:15-224 | over any history of deploys, builds, stops by hand, stop batches and reconciliations stored hashes stay the aggregates of stored manifests |
| `Histories.HistoryNormal` | build/build_allocations.go:95-104 | over any such history stored versions stay in normal form |
| `Histories.KeepsExactly` | build/build_allocations.go:41-160 | between deploys a settled allocation stays settled if and only if its target version is unchanged, it is not re-enabled or stopped by hand, and it is not removed when reconciliation drops hashes |
| `Histories.StopsExactly` | deploy/allocations.go:300-356 | a stop batch records exactly the removed, enabled allocations as up to date, and the end of reconciliation forgets exactly the removed ones |
| `Histories.SettledOverHistory` | deploy/hashes.go:94-114 | over any such history, until its content, version or live state changes, an allocation whose gate passed is never acted on, nor its hashes and manifests changed, by a non-force deploy |
| `Histories.DeploysVanish` | deploy/job_deploy.go:20-46 | deploys of one content, failing or not, forced or not, can be struck from a history without changing what the rest leads to |
| `Histories.ConvergenceOverHistory` | deploy/job_deploy.go:20-46 | a success after any such history leaves every active allocation running what a single success after the history without its deploys leaves, and when both roll out all rows not removed are the same |
| `FleetImpl.AllJobsDeployedOrSkipped` | deploy/history.go:34-48 | true exactly when every deployable job has an outcome other than failed |
| `FleetImpl.Bucket.Execute` | deploy/execute.go:207-372 | staging, hooks, job loop, metadata, bump or revert and commit, as the specification has them, with exactly the reported errors collected |
| `Fleet.CleanExactly` | deploy/execute.go:213-303 | a run is clean if and only if nothing was deployable, or nothing stopped it and every job was staged and its deploy succeeds |
| `FleetJobs.RunExactly` | deploy/execute.go:213-299 | for each deployable job of every run, its rows, its outcome and whether its deploy was entered: its own deploy if its turn comes, otherwise what staging left |
| `FleetJobs.FailureEndsLoop` | deploy/execute.go:283-297 | after a job whose deploy fails, every later job keeps exactly its staged rows, is not entered, and has no outcome but a failed staging |
| `Fleet.CleanWhenReported` | deploy/execute.go:213-372 | with something deployable a run is clean if and only if no reported error concerns the jobs, no pre-deploy hook aborted it and no staging was cancelled |
| `Fleet.SilentRunClean` | deploy/execute.go:213-372 | a run that reports nothing is clean if and only if no staging was cancelled |
| `Fleet.SyncFailureIsClean` | deploy/execute.go:301-332 | a concrete run: one job deployed, the sync reaches nobody, the error is reported, the run is clean |
| `Fleet.CancelledStagingIsSilent` | deploy/execute.go:213-226 | the branch for a cancelled staging at a concrete run: nothing is reported, and the generation does not rise |
| `Fleet.NothingDeployableIsClean` | deploy/execute.go:241-303 | with nothing deployable a failed reconciliation is reported and still gives a clean run that raises the generation |
| `Fleet.ReconcileFailureCountsAsClean` | deploy/execute.go:241-303 | a concrete such run |
| `Fleet.CleanLeavesNothing` | deploy/execute.go:250-301 | after a clean run no deployable job needs rollout |
| `Fleet.CleanRunsJob` | deploy/execute.go:213-303 | a clean run gives each deployable job exactly the rows of its own successful deploy from where it stood |
| `FleetConvergence.RunEither` | deploy/execute.go:207-299 | whatever happens in a run, it leaves a deployable job's rows, stages them in part or in full, or deploys them once staged in full |
| `FleetConvergence.RunsKeepTargets` | deploy/execute.go:207-372 | no sequence of committed runs that stage one content for a job, in part or in full, moves any of its rows away from the state a rollout of that content leads to |
| `FleetConvergence.ConvergenceOverRuns` | deploy/execute.go:207-372 | any sequence of committed runs that stage one content for a job, whatever fails in them, and then a clean run leave every active allocation running what one clean run from the start would, and when both roll out the same rows that are not removed |
| `Fleet.RunAligned` | deploy/execute.go:303-354 | a run keeps every worker's generation within the catalog's if and only if its commit does not fail after a clean sync reached a worker |
| `Fleet.CommitFailureMisaligns` | deploy/execute.go:303-354 | a concrete run after which a worker is ahead of the catalog |
| `Fleet.GenerationSafety` | deploy/execute.go:70-100 | over any sequence of committed runs the generation rises by one exactly for each clean run, and no worker's generation exceeds it |
| `Semaphore.EveryInterleaving` | hooks/runtime_semaphore.go:73-148 | over every interleaving of acquires, cancels and releases, duplicate allocations included: fixed capacity, bounded holders, a queue only when full, each wait in exactly one place, grants in registration order |
| `Semaphore.EveryAcquireAnswered` | hooks/runtime_semaphore.go:44-102 | at every point of every interleaving an acquire is refused, changing nothing, if and only if it exceeds 64 or differs from the scope, is held at once if and only if it held already or a slot is free, and otherwise waits last under a fresh id; a number below one asks for one slot |
| `Semaphore.DefaultIsExclusive` | hooks/runtime_semaphore.go:44-102 | of two that acquire a new scope without a number, or with one of at most one, the second waits |
| `Semaphore.ReleaseAnswered` | hooks/runtime_semaphore.go:123-148 | a release is refused, changing nothing, if and only if the allocation does not hold; otherwise its slot is given up and exactly the shortest prefix of the queue is granted after which no slot is free or nobody waits |
| `Semaphore.RegisterValid` | hooks/runtime_semaphore.go:73-102 | registering keeps the invariant and the capacity |
| `Semaphore.ReleaseValid` | hooks/runtime_semaphore.go:123-148 | releasing, with all the grants it causes, keeps them |
| `Semaphore.CancelValid` | hooks/runtime_semaphore.go:104-121 | cancelling removes exactly the one wait, if queued, and keeps the order of the others |
| `Semaphore.CancelReachesExactly` | hooks/runtime_semaphore.go:104-121 | a cancel reaches an open wait if and only if it is not granted yet |
| `Semaphore.LateCancelKeepsHold` | hooks/runtime_semaphore.go:104-121 | cancelling a granted wait changes nothing |
| `Semaphore.TimeoutAfterGrant` | hooks/runtime_semaphore.go:44-71 | a concrete run from no semaphores: the time-out comes after the grant, and the allocation still holds |
| `Semaphore.HoldsUntilReleased` | hooks/runtime_semaphore.go:73-148 | over every interleaving a held allocation holds throughout if and only if every release of it meets a queue that grants it again |
| `Semaphore.ReleaseEndsHold` | hooks/runtime_semaphore.go:123-148 | a release is granted again if and only if one of the allocation's waits is queued with none ahead but waits of allocations that still hold |
| `Semaphore.TwoGrantsOneHold` | hooks/runtime_semaphore.go:73-148 | a concrete run: one allocation queued twice is granted twice on one hold, and one release ends both |
| `Semaphore.GrantsPrefix` | hooks/runtime_semaphore.go:141-148 | grants are a prefix of the queue, and their allocations hold |
| `Semaphore.ReleaseServesOldest` | hooks/runtime_semaphore.go:123-139 | a release someone waits for grants at least the oldest waiter |
| `BoundedWaiting.StepAhead` | hooks/runtime_semaphore.go:73-148 | no request puts another wait ahead of a queued one, and each release of the scope by a holder takes at least one away from ahead of it or serves it |
| `BoundedWaiting.WaitIsBounded` | hooks/runtime_semaphore.go:73-148 | over every interleaving a queued wait with k waits ahead is granted or cancelled after at most k + 1 releases of its scope by holders |
| `SemaphoreImpl.CompactWaiters` | hooks/runtime_semaphore.go:104-121 | the in-place filter keeps exactly the other waiters in order |
| `SemaphoreImpl.Coordinator.RegisterWait` | hooks/runtime_semaphore.go:44-102 | the critical section is the register step, errors included |
| `SemaphoreImpl.Coordinator.CancelWait` | hooks/runtime_semaphore.go:104-121 | the critical section is the cancel step |
| `SemaphoreImpl.Coordinator.ReleaseHold` | hooks/runtime_semaphore.go:123-148 | the critical section is the release step |
| `SharedLocation.EveryInterleaving` | bucket/location.go:26-59 | at every point of every interleaving, unlocked assignments included: all inside have one root, the paths come from the location, outside the prior location is back, a root is kept out if and only if someone inside has another, and those inside find their root if and only if no direct assignment since they went in, or the last one, names another |
| `SharedLocation.StepInvariant` | bucket/location.go:26-59 | arriving, waking, leaving and assigning directly keep the holder count, the one root, the prior location, and that no sleeper misses its wake-up |
| `SharedLocation.PromiseKeptExactly` | bucket/discover.go:17-57 | over every interleaving callers always find their own root and its paths if and only if every direct assignment made while someone is inside names it |
| `SharedLocation.AssignedUnderneath` | bucket/discover.go:80-85 | a concrete run: a hook inside resolves another root, and the next caller is let into it |
| `SharedLocation.Implements` | bucket/location.go:26-59 | over every interleaving the counters and the condition variable give the callers inside, the callers waiting and the remembered location of a monitor told from the steps alone |
| `SharedLocation.Restores` | bucket/location.go:45-55 | once all have left, location and paths are those last set while nobody was inside, as that monitor tells |
| `SharedLocation.Drains` | bucket/location.go:32-55 | no deadlock: from every state some schedule lets every caller in and out |
| `SharedLocation.Location.TryEnter` | bucket/location.go:32-43 | the critical section is the acquire step, entered exactly when not blocked |
| `SharedLocation.Location.Exit` | bucket/location.go:45-55 | the critical section is the release step |
| `SharedLocation.Location.UpdatePath` | bucket/const.go:29-37 | seven assignments in order, the later ones joined to fields just assigned, give the paths of the location |
| `SharedLocation.Location.ResolveRoot` | bucket/discover.go:17-57 | the assignment discovery ends with is the direct step |
| `JobDigest.CanonicalBytes` | jobsign/signing.go:170-185 | the buffer ends with the canonical bytes, or the first path outside the job is reported |
| `JobDigest.NumberOfDigits` | jobsign/signing.go:187-192 | the eight length bytes determine the length |
| `JobDigest.DecodesEncoded` | jobsign/signing.go:170-192 | the length-prefixed entries can be read back |
| `JobDigest.BodyEncodes` | jobsign/signing.go:170-185 | bytes exist exactly when every covered file lies below the job, and encode exactly the covered files |
| `JobDigest.OneFile` | jobsign/signing.go:170-192 | the bytes of one file: length and name below the job, then length and content |
| `JobDigest.SameBytesSameFiles` | jobsign/signing.go:126-192 | two captures of a job have equal bytes if and only if they hold the same regular files with the same contents, signature aside |
| `JobDigest.SignatureNotCovered` | jobsign/signing.go:170-185 | adding, replacing or removing signature files anywhere leaves bytes or error unchanged |
| `ShellQuote.QuoteIsOneWord` | hooks/runtime.go:173-175 | a quoted value reads back as one word, itself, if and only if it is NUL-free |
| `ShellQuote.ReadQuoted` | bucket/command.go:56-58 | wherever quoting is off, a quoted value joins the current word literally |
| `ShellQuote.AppendedWords` | hooks/runtime.go:177-187 | the appended line reads as the base's words followed by exactly the arguments |
| `ShellQuote.AppendScriptArgs` | hooks/runtime.go:177-187 | the loop and join give the base followed by each quoted argument |
| `ShellQuote.IsValidEnvKey` | bucket/command.go:39-53 | true exactly for shell variable names |
| `ShellQuote.ExportReads` | bucket/command.go:24-30 | an export line reads as one operand assigning the value literally |
| `OneShot.ExactlyOneShot` | hooks/kive.py:79-94 | of all allocations whose hooks one invocation starts, exactly one is the one-shot, for every batch size and whichever batches fail |
| `OneShot.OneShotInBatch` | hooks/batch.go:83-93 | within a batch it is the first address of batch zero |
| `OneShot.OneShotSpaced` | hooks/kive.py:79-94 | in Python also for addresses with space around them: the first one of batch zero, compared without it |
| `OneShot.SdksAgree` | hooks/sdk/go/kivehook/kivehook.go:67-77 | the Go rule and the Python rule answer alike |
| `OneShot.OutsideBatches` | hooks/kive.py:79-94 | without batch variables the allocation index decides; the Go and the Python rule differ if and only if it is set but empty |
| `OneShot.RunHookInBatches` | hooks/batch.go:98-165 | batches start in order, none after a cancellation, none after a failure unless told to go on; as many failures are collected as started batches failed |
| `DeployOneShots.LoggedBatches` | deploy/rollout.go:69-185 | every run, failing or not, starts hooks for a prefix of each phase's batches in order, for all of a phase before the next begins, for none of a phase it does not reach, and for all if it succeeds |
| `DeployOneShots.DeployOneShotCount` | deploy/rollout.go:69-190 | every deploy, forced or not, failing or not, has one one-shot among its start hooks if it gets to any, and two among its restart hooks if and only if something is reloaded and it gets to the hooks of a restart batch; on success it gets to the hooks of exactly the actions some allocation gets |
| `DeployOneShots.TwoOneShots` | deploy/rollout.go:109-190 | a deploy of two workers, one reloaded and one restarted, with two one-shots, given that the pattern "x" matches the path "x" and the hooks pattern does not |
| `Strings.SplitJoin` | hooks/batch.go:83-85 | splitting at commas undoes joining comma-free addresses |
| `EditDistance.Levenshtein` | conf/error.go:129-164 | the two-row swapping loop computes the textbook recursion |
| `EditDistance.LevIsMinimum` | conf/error.go:129-164 | that recursion is the least number of single-character insertions, deletions and replacements |
| `EditDistance.SuggestClosest` | conf/error.go:112-127 | the hint is the least of the closest candidates within three, or none, if and only if no empty candidate is among the closest; otherwise it is that of the candidates after the last empty one |
| `EditDistance.EmptyCandidateTies` | conf/error.go:112-127 | a list where the empty candidate ties and no hint the code can give is the right one, given that lower-casing keeps "a", "b" and the empty string |

## Left out

- SSH, rsync, HTTP proxying, staging of files, template rendering, prometheus, certificates and X.509 checks: only their outcomes enter.
- Database errors: the operations on rows succeed; a failed commit is modelled.
- The job_control hook path of `deployJobWithCommands`, and the stop batches of reconciliation: more outcomes of the same batch loop.
- The plan struct that `planJobRollout` assembles, and `planDisabledAllocation`: listing and counting around `planActiveAllocation`.
- Deploy history, log lines, hook KV persistence and post-deploy hooks: they change no allocation row or generation, and enter `Fleet` only as errors reported. Deleting rows (garbage collection) is not a step of `Histories`.
- Source text that is not valid UTF-8, and the double that a fractional literal denotes: only its text and whether it is accepted.
- Where the parser's own diagnostics point is as its functions have it; `ConfDiagnostics` speaks of the scanner's.
- Hints, snippets and wording of configuration errors, and the quoting of the suggested name: a problem and a position stand for the message.
- Printing kive.conf is a function over a table of settings in file order rather than a straight line of appends.
- The loading step after `ParseKiveConf` (defaults for absent settings, range checks, timezone lookup).
- Webhook and observe configuration: the same language, partly resting on duration printing.
- `SharedLocation`: an unlocked assignment of the location and the rebuilding of its paths is one step, so a reader between the two is not modelled; a failing absolute-path lookup changes nothing and is not a step.
- `Semaphore`: clocks; a timeout is a cancel step that may come at any time. The status payload and scope-key text.
- `ShellQuote`: expansion, operators and patterns outside quotes; the reader refuses such lines rather than interpreting them. Trimming and line assembly in `BuildCommandScript`.
- `OneShot`: an environment is a map in which a later setting wins, rather than a list of lines.
- `JobDigest.SameBytesSameFiles`: speaks of the canonical bytes; SHA-256 itself is not modelled.
- `Fleet.CancelledStagingIsSilent`: follows the branch at deploy/execute.go:216-219; staging takes no context, and nothing in it is seen to return a cancellation.
- `DeployOneShots.DeployOneShotCount`: counts one hook of an event; where an event lists several, those after one that fails are not started in that batch.
- `RolloutImpl.Deployer.DeployJob`: covers the branch without job_control commands; in the other one the commands are started on every allocation, batch by batch, with the same gates and promotion.
- `FleetImpl.Bucket.Execute`: takes reconciliation as one outcome, so the tables of `Fleet` and `FleetConvergence` do not show the rows it changes; those changes are the steps `Stop` and `Reconcile` of `Histories`.
- `SharedLocation.Location.ResolveRoot`: the assignment at the end of bucket discovery; the search for the root directory is a parameter.
- `ShellQuote.AppendedWords`: speaks of base commands without operators or expansions outside quotes; the reader refuses the others.
- CLI commands, catalog tables for display, logging, collection probes, initialisation, schema migrations and pruning: plumbing.
