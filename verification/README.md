# Verification of the event platform's evidence, ledger and protocol code

This project models the parts of the repository whose correctness is not visible in one function:
canonical texts that two parties must hash alike, recognisers of test evidence, database triggers
that keep append-only logs, small protocols between replicas, a configuration patch whose keys
arrive in map order, and the folds behind the dashboards and cost reports. To verify all of it, run
`dafny verify dfyconfig.toml` in this directory (Dafny 4.11).

Code that changes things step by step is modelled by methods and classes: the triggers and the
tables they guard, the limiter's counter, the nonce transaction, the event configuration, the guest
tally, the moments table, the sorting and hashing loops. Each such method is proved against a
specification on values, and the lemmas then speak about every input, every run or every interleaving
of that specification.

## Modules

- `Wrappers`, `Sequences`, `ByteStrings`, `Runes`: options and results, permutations and sorting,
  byte order, line, decimal, hex and big-endian encodings, white space. `Sequences.Sort` stands for
  Go's `sort.Slice` and Python's `sorted`: it promises a sorted permutation and nothing about ties.
  `ByteStrings.Hash` is SHA-256 reduced to a function with a 32-byte result; a lemma that needs two
  digests to differ says which two strings must not collide.
- `PatchManifests`, `ActivityDetails`: the two patch manifests and the activity-detail validator that
  recomputes one of them.
- `Worktree`: the sandbox byte stream, its two producers, and the candidate verifier.
- `TestEvidence`, `OracleEvidence`: the Go and Python test-evidence verifiers, the inner oracle
  automaton and the execution verifier.
- `TriggerGuards`, `TaskLedger`, `InferenceReceipts`, `AssignmentLedger`: triggers that raise on whole
  classes of statements, and the tables that triggers enforce.
- `IndexMigration`, `RateLimiter`, `CallbackNonces`: protocols of several replicas.
- `EventConfigPatch`, `EventConfigOutcomes`: applying a JSON patch to an event configuration, and which
  configurations the orders of its keys can lead to.
- `GuestAnalytics`, `CacheCosts`, `MomentUniqueness`: accounting folds and de-duplication.

## Where the code and its intent part

- A change of `run_id` on a task that is not running leaves no event
  (`configuration/gorm.go:296-307`). `TaskLedger.SilentUpdates` says exactly which updates are
  silent, `TaskLedger.UpdateShowsRunExactly` exactly when an update leaves the last event naming the
  row's run, and `TaskLedger.QueuedRunChangeIsSilent` is a run whose log disagrees with its row.
- A receipt settled before its first diagnostics write can never get one
  (`configuration/gorm.go:483-484`): `InferenceReceipts.LateFirstWriteIsRefused`.
- `welcome_message` and `default_welcome_message` do not shadow each other, and neither do two
  aliases of one field (`dtos/EventConfig.go:143-149`). `EventConfigPatch.WelcomeDependsOnOrder` is a
  patch with two results. `EventConfigOutcomes.OrderIrrelevantExactly` gives the condition under which
  the order of the map's keys is irrelevant to the loop, and `EventConfigOutcomes.OneOutcomeExactly`
  the weaker one under which it is irrelevant to the whole call, where the coupling or the range check
  can hide a disagreement; both go both ways.
- The coupling after that loop looks a flag up by the field's own name and its aliases only
  (`dtos/EventConfig.go:353-374`), so `show_wall` does not keep sharing from hiding the wall although
  the loop accepts it (`dtos/EventConfig.go:250`). `EventConfigPatch.ShowWallIsLost` is a patch that asks
  for both and loses the wall, on every consistent configuration;
  `EventConfigPatch.WallWishHonouredExactly` says that a patch that asks for the wall gets it if and only
  if it spells the wall by the field's own name or an alias of that, or does not ask to share.
- Redis keeps a key while the clock has not passed its expiry, so a caller is certain never to be
  denied only if it keeps to the limit in every closed interval of one window
  (`routes/rate_limit_store.go:16-22`): `RateLimiter.ModerateCallerNeverDenied`, and
  `RateLimiter.HalfOpenIsNotEnough` for the half-open reading.
- The comment on the callback middleware says that a replay cannot reach the handler
  (`controllers/automation/agent_callback_auth.go:36-39`). Clean-up leaves one way.
  `CallbackNonces.DispatchedExactly` gives it for every commit of every run: a request is dispatched if
  and only if its instance is active under the verified key and the row of every earlier admission of
  its nonce has been swept by a later stamp. `CallbackNonces.ReplayNeedsAStall` derives that the second
  copy must stall for more than 120 seconds between its verification and its commit, and
  `CallbackNonces.StalledReplayHappens` gives a run for every longer stall, so the bound is sharp.

## Model

| member | source | states |
|---|---|---|
| `PatchManifests.RepositoryRefIsRootReference` | models/DeliveryPlanStepActivityEvent.go:221-263 | a patch repository reference is exactly a valid workspace reference with no path below the workspace |
| `PatchManifests.UniqueKeyInjective` | models/DeliveryPlanStepDependencyPatch.go:59-63 | for valid references the NUL-joined key is equal exactly when step and repository are |
| `PatchManifests.DependencyAcceptancePermutes` | models/DeliveryPlanStepDependencyPatch.go:34-67 | reordering a dependency list keeps its acceptance |
| `PatchManifests.ArtifactAcceptancePermutes` | models/DeliveryPlanStepActivityEvent.go:180-195 | reordering an artifact list keeps its acceptance |
| `PatchManifests.DependencyTextUnique` | models/DeliveryPlanStepDependencyPatch.go:38-78 | two orders of one accepted set are written as the same text |
| `PatchManifests.ArtifactTextUnique` | models/DeliveryPlanStepActivityEvent.go:184-204 | the same for patch artifacts |
| `PatchManifests.TextRoundTrip` | models/DeliveryPlanStepDependencyPatch.go:68-77 | a newline-terminated text of fixed-width rows splits back into exactly its rows |
| `PatchManifests.DependencyTextParses` | models/DeliveryPlanStepDependencyPatch.go:49-78 | splitting the text of an accepted list into five-line rows returns the sorted list |
| `PatchManifests.ArtifactTextParses` | models/DeliveryPlanStepActivityEvent.go:186-204 | splitting the artifact text into four-line rows returns the sorted list |
| `PatchManifests.DependencyTextBinds` | models/DeliveryPlanStepDependencyPatch.go:31-81 | accepted lists with equal text are permutations of each other |
| `PatchManifests.ArtifactTextBinds` | models/DeliveryPlanStepActivityEvent.go:177-207 | the same for patch artifacts |
| `PatchManifests.DependencyDigestBinds` | models/DeliveryPlanStepDependencyPatch.go:79-80 | short of one SHA-256 collision, manifest digests agree exactly when the reference sets do |
| `PatchManifests.ArtifactDigestBinds` | models/DeliveryPlanStepActivityEvent.go:205-206 | the same for patch artifacts |
| `PatchManifests.WriteManifest` | models/DeliveryPlanStepDependencyPatch.go:49-78 | the loop accepts exactly the valid, duplicate-free lists within the size limit, writes their text, and its 64-bit running total never wraps |
| `PatchManifests.DependencyManifest` | models/DeliveryPlanStepDependencyPatch.go:34-81 | accepts exactly: at most 64 references, each valid, no step twice for one repository, at most 32 MiB; the result is the hex digest of the canonical text |
| `PatchManifests.ArtifactManifest` | models/DeliveryPlanStepActivityEvent.go:180-207 | accepts exactly: one to six artifacts, each valid, repositories distinct; the result is the hex digest of the canonical text |
| `ActivityDetails.AllValidAndDistinct` | models/DeliveryPlanStepActivityEvent.go:145-154 | the check of a list with a `seen` map accepts exactly the lists of valid, pairwise different elements |
| `ActivityDetails.ArtifactsMatchReview` | models/DeliveryPlanStepActivityEvent.go:91-109 | artifacts are accepted exactly when the review digest is the digest of their manifest |
| `ActivityDetails.ValidateLists` | models/DeliveryPlanStepActivityEvent.go:139-170 | bounds, validity, distinctness and permitted actions of resource references and changed files |
| `ActivityDetails.ValidateEvidence` | models/DeliveryPlanStepActivityEvent.go:84-127 | dependency claim, artifacts and acceptance checks are accepted exactly under their declarative conditions |
| `ActivityDetails.Validate` | models/DeliveryPlanStepActivityEvent.go:72-175 | the validator returns nil exactly on details the declarative predicate accepts |
| `ActivityDetails.ReviewIgnoresOrder` | models/DeliveryPlanStepActivityEvent.go:91-109 | the comparison with the review digest does not see the order of the artifacts |
| `ActivityDetails.VerdictIgnoresArtifactOrder` | models/DeliveryPlanStepActivityEvent.go:72-175 | reordering the patch artifacts never changes the verdict |
| `ActivityDetails.DigestIsFunctional` | models/DeliveryPlanStepActivityEvent.go:177-207 | an accepted set has one digest in every order, and it has the shape that the digest validator asks for |
| `ActivityDetails.ReviewDigestNamesArtifacts` | models/DeliveryPlanStepActivityEvent.go:105-108 | short of a collision, two accepted uploads with one review digest list the same artifacts |
| `Worktree.StreamRoundTrip` | scripts/sandbox_worktree.py:57-87 | the header and the length-prefixed frames of any number of files decode to exactly their records |
| `Worktree.StreamInjective` | scripts/sandbox_worktree.py:82-87 | equal streams have equal paths, modes, sizes and content hashes |
| `Worktree.StreamUnique` | scripts/sandbox_worktree.py:56-87 | the stream of files with different paths does not depend on the order they were found in |
| `Worktree.SnapshotIgnoresWalkOrder` | scripts/sandbox_worktree.py:38-56 | neither acceptance nor the stream depends on the order of the walk |
| `Worktree.Collect` | scripts/sandbox_worktree.py:35-55 | the walk is refused exactly for credentials, directory links, deep paths or too many files, and otherwise yields the files outside the excluded names |
| `Worktree.WriteStream` | scripts/sandbox_worktree.py:57-87 | refused exactly for a non-regular or oversized file or too many bytes in all, and otherwise writes the stream of the files |
| `Worktree.Snapshot` | scripts/sandbox_worktree.py:31-93 | succeeds exactly on acceptable walks, with the digest of their stream in path order |
| `Worktree.PackageDigest` | scripts/prepare_implementation_candidate.py:12-22 | the second producer's digest is that of the same stream for the non-executable files of the dictionary |
| `Worktree.WritePackage` | scripts/prepare_implementation_candidate.py:14-21 | its loop writes the same frames as the snapshot |
| `Worktree.StreamsUnique` | scripts/prepare_implementation_candidate.py:15 | neither producer's stream depends on the order in which a directory or a dictionary lists its names |
| `Worktree.VerifyCandidate` | scripts/verify_implementation_candidate.py:26-37 | accepts exactly when inventory, modes and the two digests agree |
| `Worktree.SameFilesSameStream` | scripts/sandbox_worktree.py:82-87 | a worktree that holds the prepared files has the package's stream |
| `Worktree.EqualStreamsEqualFiles` | scripts/verify_implementation_candidate.py:29-37 | with equal inventories, equal streams mean equal contents, short of a content collision |
| `Worktree.CandidateBinding` | scripts/verify_implementation_candidate.py:16-44 | for a worktree whose walk is accepted and prepared names outside the excluded set, and short of collisions: a candidate is accepted exactly when the worktree is the prepared package byte for byte |
| `TestEvidence.AdvanceCounts` | cmd/verify-test-evidence/main.go:111-131 | the counters of a test are its trace (runs = passes + skips + active), and an event is refused exactly when it breaks the alternation |
| `TestEvidence.StepTracks` | cmd/verify-test-evidence/main.go:78-132 | every accepted row keeps the counters of every test and package equal to their traces |
| `TestEvidence.RefusalIsRight` | cmd/verify-test-evidence/main.go:83-131 | a row is refused in the loop only when no trace that begins so is acceptable |
| `TestEvidence.CountersMeanPackage` | cmd/verify-test-evidence/main.go:136-150 | the final check of a package's counters holds exactly when its trace is in the declarative language |
| `TestEvidence.CheckArguments` | cmd/verify-test-evidence/main.go:64-73 | positive repetitions and non-empty, distinct packages |
| `TestEvidence.ReadRows` | cmd/verify-test-evidence/main.go:74-135 | the loop either tracks the whole stream or refuses one that no arguments could accept |
| `TestEvidence.CheckPackage` | cmd/verify-test-evidence/main.go:137-149 | one completion, at least one passing test, every test fully repeated |
| `TestEvidence.CheckRequired` | cmd/verify-test-evidence/main.go:152-160 | a required test has passed fully in exactly one package |
| `TestEvidence.Verify` | cmd/verify-test-evidence/main.go:63-163 | nil exactly on readable streams of the declarative trace language |
| `TestEvidence.OwnPackage` | cmd/verify-test-evidence/main.go:74-75 | acceptance of a package is a property of its own subsequence of rows |
| `TestEvidence.VerdictIgnoresInterleaving` | cmd/verify-test-evidence/main.go:74-132 | two interleavings of the same package streams get the same verdict |
| `TestEvidence.VerifyPython` | scripts/verify_go_test_evidence.py:7-30 | accepts exactly: no failure, each required test run once and passed in one named package, each such package completed once |
| `TestEvidence.GoAcceptedIsPythonAccepted` | scripts/verify_go_test_evidence.py:7-30 | a stream the Go verifier accepts for one repetition without skips is accepted by the Python one for every non-empty duplicate-free part of the required tests |
| `OracleEvidence.StepTracks` | scripts/verify_implementation_sandbox.py:22-51 | the automaton's sets and outcomes are the lives of the tests read so far |
| `OracleEvidence.RefusalIsRight` | scripts/verify_implementation_sandbox.py:23-51 | an event is refused only when the whole list is outside the language |
| `OracleEvidence.VerifyInner` | scripts/verify_implementation_sandbox.py:19-53 | accepts exactly the lists with one leading start, whole test lives, output only inside them, and a last result that is expected and agrees with the contract test |
| `OracleEvidence.OutcomeIsLife` | scripts/verify_implementation_execution.py:45-46 | in accepted evidence the last-wins outcome table is the one result of each test |
| `OracleEvidence.TableMeansTrace` | scripts/verify_implementation_execution.py:44-54 | the checks on the last-wins table, its keys and its failures hold if and only if the traces of the tests meet that description |
| `OracleEvidence.VerifyExecution` | scripts/verify_implementation_execution.py:40-54 | accepts exactly the evidence whose traces say: inner list accepted, tests only of the suite, exit code 0 with every required case passed or 1 with some required case failed |
| `OracleEvidence.ExitCodeMeansAllPassed` | scripts/verify_implementation_execution.py:44-54 | exit code 0 exactly when every required case ran once and passed, 1 exactly when one ran once and failed, and no other case ran |
| `OracleEvidence.LaterChecksLoseNothing` | scripts/verify_implementation_sandbox.py:137-146 | accepted evidence holds no skip, and counting a case's passes or failures counts its one execution |
| `TaskLedger.UpdateEventFollows` | configuration/gorm.go:283-311 | an update's event starts where the last one ended, shows the new row, and is typed after the first thing that changed; a silent update leaves the last event showing the row |
| `TaskLedger.ExecuteKeepsFaithful` | configuration/gorm.go:271-348 | every statement, refused or not, keeps every task's log faithful |
| `TaskLedger.EveryRunIsFaithful` | configuration/gorm.go:312-348 | over every run each log is numbered 1 to n, chains, and ends at the live row |
| `TaskLedger.ReplayIsTheRow` | configuration/gorm.go:267-327 | the log of a task determines its row, up to the run of a task that is not running |
| `TaskLedger.LogOnlyGrows` | configuration/gorm.go:334-347 | over every run the log of an earlier state is a prefix of that of a later one, whatever UPDATE, DELETE and TRUNCATE of the log are attempted |
| `TaskLedger.LogIsGuarded` | configuration/gorm.go:334-347 | the two append-only triggers between them undo every kind of statement on existing events |
| `TaskLedger.LastEventIsPastRow` | configuration/gorm.go:271-333 | over every run the last event of a task is its whole row, run included, as the statement that logged it left it |
| `TaskLedger.UpdateShowsRunExactly` | configuration/gorm.go:290-307 | an update leaves the last event naming the row's run if and only if the row is running, something else changed too, or that event names the new run already |
| `TaskLedger.RunShownExactly` | configuration/gorm.go:290-307 | over every run the last event names the row's run if and only if the silent updates since that event have kept the run it was logged with |
| `TaskLedger.SilentUpdates` | configuration/gorm.go:290-307 | exactly which updates leave no event |
| `TaskLedger.QueuedRunChangeIsSilent` | configuration/gorm.go:296-307 | a run in which the last event and the row name different runs |
| `TaskLedger.TaskTable.CaptureEvent` | configuration/gorm.go:312-326 | appends one event with the next number of its task |
| `TaskLedger.TaskTable.InsertTask` | configuration/gorm.go:308-333 | the table and its log after an INSERT, by the specification of the runs |
| `TaskLedger.TaskTable.UpdateTask` | configuration/gorm.go:283-333 | the table and its log after an UPDATE, by the specification of the runs |
| `InferenceReceipts.AllowedDecreasesRank` | configuration/gorm.go:480-511 | every update let through strictly decreases the rank |
| `InferenceReceipts.AllowedTouchesOnePart` | configuration/gorm.go:477-511 | no update changes accounting and diagnostics at once, only a settlement changes accounting, and the binding never changes |
| `InferenceReceipts.AtMostThreeUpdates` | configuration/gorm.go:471-513 | over every run a receipt is updated at most three times |
| `InferenceReceipts.ThreeUpdatesHappen` | scripts/test-inference-diagnostics-postgres.py:33-52 | reservation, settlement and terminal write are let through in this order, after which nothing is |
| `InferenceReceipts.SettledStaysFrozen` | configuration/gorm.go:494-510 | once settled, status and accounting never change; the binding never changes |
| `InferenceReceipts.AccountingChangesOnce` | configuration/gorm.go:494-510 | accounting changes in one update at most, the settling one |
| `InferenceReceipts.ReservationMetadataIsKept` | configuration/gorm.go:485-487 | over every run diagnostics differ from the first write only in the outcome keys |
| `InferenceReceipts.FrozenExactly` | configuration/gorm.go:480-511 | some update is possible exactly while the receipt is reserved or its versioned diagnostics await a terminal stage |
| `InferenceReceipts.LateFirstWriteIsRefused` | scripts/test-inference-diagnostics-postgres.py:62-63 | a receipt settled without diagnostics is final |
| `InferenceReceipts.SettlementAndTerminalCommute` | configuration/gorm.go:477-511 | from a reserved receipt with reserved-stage diagnostics both orders are let through and meet in a final receipt |
| `InferenceReceipts.ReceiptTable.UpdateReceipt` | configuration/gorm.go:471-521 | the table changes exactly when the trigger lets the update through, and the row's rank then falls |
| `AssignmentLedger.CaptureIsBound` | configuration/gorm.go:764-788 | an event carries the assignment's binding and the plan, version and parent task of its execution |
| `AssignmentLedger.RowsAreGuarded` | configuration/gorm.go:683-810 | no DELETE or TRUNCATE of executions or assignments and no rewriting of the log gets past its triggers |
| `AssignmentLedger.ExecuteKeepsFaithful` | configuration/gorm.go:683-810 | every statement, refused or not, keeps every assignment's log faithful |
| `AssignmentLedger.EveryRunIsFaithful` | configuration/gorm.go:731-795 | over every run an assignment's events carry its binding, chain, and end at the live row |
| `AssignmentLedger.EventsAgree` | configuration/gorm.go:683-810 | any two events of one assignment name the same execution, plan, version, step and tasks |
| `AssignmentLedger.BindingsAreFrozen` | configuration/gorm.go:683-722 | over every run no assignment is rebound and no execution snapshot changes |
| `AssignmentLedger.AssignmentTables.CaptureEvent` | configuration/gorm.go:764-789 | appends the event, or refuses the statement when execution or step is missing or their plans differ |
| `AssignmentLedger.AssignmentTables.Create` | configuration/gorm.go:760-795 | the tables after an INSERT of an assignment, by the specification of the runs |
| `AssignmentLedger.AssignmentTables.Change` | configuration/gorm.go:709-795 | the tables after an UPDATE of an assignment, by the specification of the runs |
| `AssignmentLedger.AssignmentTables.ChangeExecution` | configuration/gorm.go:683-704 | the tables after an UPDATE of an execution, by the specification of the runs |
| `IndexMigration.DdlUnderLock` | configuration/postgres_indexes.go:161-194 | in every state the invariant allows, a step that may change the index runs on the one session holding the advisory lock |
| `IndexMigration.GoodStaysGood` | configuration/postgres_indexes.go:173-194 | no step removes a good index |
| `IndexMigration.NextKeepsInv` | configuration/postgres_indexes.go:116-243 | every step of every replica, of the server or of the pool keeps the invariant |
| `IndexMigration.EveryStateKeepsInv` | configuration/postgres_indexes.go:116-243 | so does every state of every run |
| `IndexMigration.DdlIsSerialized` | configuration/postgres_indexes.go:213-243 | over every run the index changes only on the session that holds the lock, and only one holds it |
| `IndexMigration.GoodIndexSurvives` | configuration/postgres_indexes.go:177-190 | over every run a good index stays as it is |
| `IndexMigration.NilMeansGood` | configuration/postgres_indexes.go:177-210 | a nil return means a good index then and ever after |
| `IndexMigration.PoolIsClean` | configuration/postgres_indexes.go:124-159 | every pooled connection holds no lock, has default timeouts and nothing in flight |
| `IndexMigration.BuildFromNothing` | configuration/postgres_indexes.go:116-211 | a run that builds the index, returns nil and gives its connection back, so the properties of nil returns and of the pool are not empty |
| `IndexMigration.ConfirmedLockIsHeld` | configuration/postgres_indexes.go:140-142 | the cleanup never finds that a confirmed lock was not held |
| `RateLimiter.Limiter.RunScript` | routes/rate_limit_store.go:16-22 | the counter after INCR and PEXPIRE, and the number the script returns |
| `RateLimiter.Limiter.Allow` | routes/rate_limit_store.go:48-68 | counter and answer after one request, whether or not its call failed and counted |
| `RateLimiter.GrantedInvariant` | routes/rate_limit_store.go:16-22 | how much of an interval's grants the live counter has seen, by whether it began before, in or after the interval |
| `RateLimiter.AtMostTwiceTheLimit` | routes/rate_limit_store.go:48-66 | failing closed, no half-open interval of one window is granted more than twice the limit less one (nothing for limit 0), whatever calls fail |
| `RateLimiter.BoundIsAttained` | routes/rate_limit_store.go:16-22 | a run that is granted twice the limit less one in one window, for every positive limit and every window of at least two milliseconds |
| `RateLimiter.AtMostTheLimitPerLifetime` | routes/rate_limit_store.go:58-61 | one counter lifetime grants at most the limit |
| `RateLimiter.CountIsRequests` | routes/rate_limit_store.go:16-22 | without errors the live count is the number of requests since the counter began |
| `RateLimiter.DeniedExactly` | routes/rate_limit_store.go:58-61 | without errors a request is denied exactly when the limit was used up since its counter began |
| `RateLimiter.ModerateCallerNeverDenied` | routes/rate_limit_store.go:48-61 | without errors a caller within the limit in every closed window is never denied |
| `RateLimiter.HalfOpenIsNotEnough` | routes/rate_limit_store.go:16-22 | a caller within the limit in every half-open window that is denied |
| `CallbackNonces.Database.Admit` | controllers/automation/agent_callback_auth.go:85-108 | the tables after the transaction, or unchanged with the reason of the refusal |
| `CallbackNonces.NextKeepsInv` | controllers/automation/agent_callback_auth.go:74-119 | every step of every replica keeps each dispatch guarded by its nonce row or past its retention |
| `CallbackNonces.EveryStateKeepsInv` | controllers/automation/agent_callback_auth.go:74-119 | so does every state of every run |
| `CallbackNonces.NonceReuseWaits` | controllers/automation/agent_callback_auth.go:93-107 | a nonce is dispatched again only by a commit more than the retention after the first captured time |
| `CallbackNonces.RowsAreUnsweptAdmissions` | controllers/automation/agent_callback_auth.go:93-107 | at every state of every run the nonce rows are exactly those of committed admissions that no later stamp's clean-up has swept |
| `CallbackNonces.DispatchedExactly` | controllers/automation/agent_callback_auth.go:85-119 | over every run a commit dispatches its request if and only if the instance is active under the verified key and every earlier admission of the nonce has been swept |
| `CallbackNonces.ReplayIsDispatchedExactly` | controllers/automation/agent_callback_auth.go:93-107 | a copy of a request admitted once before is dispatched again if and only if it is still authorised and some admission in between had a stamp past the first one's retention |
| `CallbackNonces.ReplayNeedsAStall` | internal/agentcallbackauth/signature.go:49-63 | one signed request is dispatched twice only if the second copy waited more than 120 seconds between verification and commit |
| `CallbackNonces.DispatchIsAuthentic` | controllers/automation/agent_callback_auth.go:83-92 | every dispatch committed while its instance was active under the key that verified it, with a timestamp inside the skew |
| `CallbackNonces.StalledReplayHappens` | controllers/automation/agent_callback_auth.go:79-107 | for every positive excess a run that dispatches one request twice, the second copy having stalled exactly 120 seconds and that excess |
| `Runes.TrimIsIdempotent` | dtos/EventConfig.go:177 | trimming a trimmed text changes nothing |
| `EventConfigPatch.ClearingValues` | dtos/EventConfig.go:518-648 | null clears every kind of field, and blank text every kind that trims |
| `EventConfigPatch.PaddingIsIgnored` | dtos/EventConfig.go:538-648 | white space around a text matters only for fields that keep text as written |
| `EventConfigPatch.RunReflects` | dtos/EventConfig.go:143-289 | after any keys in any order a field holds its old value or that of a key that writes it, and visibility is marked exactly when such a key was read |
| `EventConfigPatch.RefusedKeyStops` | dtos/EventConfig.go:172-181 | a key the initial configuration refuses stops every order, even where another key changes the password first |
| `EventConfigOutcomes.LoopReachesExactly` | dtos/EventConfig.go:143-289 | for a patch with no key refused from the start, some order of the loop ends in a configuration if and only if it is a choice of one written value a field whose password is accepted always or is the only one written |
| `EventConfigOutcomes.OrderIrrelevantExactly` | dtos/EventConfig.go:143-289 | the loop's result is the same for every order exactly when keys for one destination agree or some key is refused from the start |
| `EventConfigOutcomes.OneOutcomeExactly` | dtos/EventConfig.go:138-319 | the whole call has one outcome for all orders if and only if some key is refused from the start, or no dates the keys leave are in range, or the keys agree about every uncoupled field and all they say of the coupled flags settles on one result |
| `EventConfigPatch.ApplyingIsConfluent` | dtos/EventConfig.go:138-319 | under that condition the whole call succeeds or fails alike, with the same configuration, in every order |
| `EventConfigPatch.SuccessMeans` | dtos/EventConfig.go:310-318 | any successful call leaves sharing on only with uploads allowed and the wall hidden, a valid active range, and no unrelated field changed |
| `EventConfigPatch.CouplingMeans` | dtos/EventConfig.go:291-312 | what a successful call leaves in the coupled fields, and when it marks visibility as configured |
| `EventConfigPatch.ApplyingIsIdempotent` | dtos/EventConfig.go:138-319 | applying a patch with agreeing keys again succeeds and changes nothing |
| `EventConfigPatch.WelcomeDependsOnOrder` | dtos/EventConfig.go:210-213 | two names of the welcome message give two results |
| `EventConfigPatch.ShortWallNameIsOverruled` | dtos/EventConfig.go:353-374 | turning sharing on hides the wall when the patch does not name it by its own name, whatever show_wall says |
| `EventConfigPatch.ShowWallIsLost` | dtos/EventConfig.go:291-312 | the patch with share_uploads_enabled and show_wall both true succeeds on every consistent configuration and leaves the wall hidden |
| `EventConfigPatch.WallWishHonouredExactly` | dtos/EventConfig.go:291-374 | after a successful agreeing patch that writes a true wall flag under any name, the wall is shown if and only if the patch spells it by the field's own name or an alias of that, or does not ask to share |
| `EventConfigPatch.OwnWallNameWins` | dtos/EventConfig.go:298-312 | the same wish under show_moment_wall is honoured and sharing stays off |
| `EventConfigPatch.EventConfig.LookUp` | dtos/EventConfig.go:353-374 | the flag under the field's own name, else under any one of its aliases |
| `EventConfigPatch.EventConfig.ApplyOne` | dtos/EventConfig.go:143-288 | the configuration after one key, or unchanged when the key is refused |
| `EventConfigPatch.EventConfig.Couple` | dtos/EventConfig.go:291-318 | the configuration after the coupling and the range check |
| `EventConfigPatch.EventConfig.ApplyTo` | dtos/EventConfig.go:138-319 | whatever order the map yields, the outcome is one that the order-free specification allows |
| `GuestAnalytics.SortedCounts` | dtos/EventAnalytics.go:79-91 | the list names every counted key once, with its count, larger counts and then names first |
| `GuestAnalytics.CountsTotal` | dtos/EventAnalytics.go:79-91 | the listed counts add up to the guests that have a key |
| `GuestAnalytics.CountsAreDetermined` | dtos/EventAnalytics.go:79-91 | the list depends on neither map order nor guest order |
| `GuestAnalytics.RunningTotals` | dtos/EventAnalytics.go:154-167 | one point a day with an answer, in order, each counting all answers up to its day |
| `GuestAnalytics.TimelineRises` | dtos/EventAnalytics.go:158-167 | of any two points the later has the later day and totals at least as large |
| `GuestAnalytics.TimelineCountsAll` | dtos/EventAnalytics.go:158-167 | the last point counts every dated answer, and without points there is none |
| `GuestAnalytics.TopIsBest` | dtos/EventAnalytics.go:148-153 | at most five rows are kept, the dropped ones are the other candidates, and none of them beats one kept |
| `GuestAnalytics.Tally.Add` | dtos/EventAnalytics.go:100-147 | what one guest adds to every total, map and list |
| `GuestAnalytics.Tally.AddAll` | dtos/EventAnalytics.go:100-147 | after the loop every total, map and list is that of all guests |
| `GuestAnalytics.Summarize` | dtos/EventAnalytics.go:93-170 | the summary's totals, lists, timeline and top rows are those of the guests |
| `GuestAnalytics.SummaryConserves` | dtos/EventAnalytics.go:93-170 | total = confirmed + declined + pending; attendees = confirmed + companions; roles sum to total, diets to confirmed, methods to confirmed + declined |
| `GuestAnalytics.SummaryIsDetermined` | dtos/EventAnalytics.go:93-170 | the summary depends only on which guests there are; equal parties may be cut differently at the fifth row |
| `CacheCosts.HalfUpIsClose` | scripts/analyze_cache_evaluation.py:34-35 | rounding half up is off by at most half a micro-USD |
| `CacheCosts.PartsAddUp` | scripts/analyze_cache_evaluation.py:30-40 | uncached, cached and written tokens add up to the input, and the component costs to the ledger's amount |
| `CacheCosts.LedgerRoundsClose` | scripts/analyze_cache_evaluation.py:33-37 | over any calls the ledger is within two micro-USD a priced call of the exact cost |
| `CacheCosts.RoundingBoundIsTight` | scripts/analyze_cache_evaluation.py:34-35 | a call that is off by exactly two micro-USD |
| `CacheCosts.CheckRows` | scripts/analyze_cache_evaluation.py:52-56 | passes exactly sound rows with one price table, and otherwise names the first broken row's fault |
| `CacheCosts.TotalCosts` | scripts/analyze_cache_evaluation.py:59-74 | a condition's costs are known exactly when every call is priced |
| `CacheCosts.CountNative` | scripts/analyze_cache_evaluation.py:62-66 | the known sum, the number of absent counters, and a total exactly when all are numbers |
| `CacheCosts.ComparePairs` | scripts/analyze_cache_evaluation.py:75-84 | one row a pair, comparing its control and its shared call |
| `CacheCosts.Analyze` | scripts/analyze_cache_evaluation.py:50-102 | a report exactly for sound rows whose complete counters are numbers, with the totals, pairs and conclusions of the rows |
| `CacheCosts.SavingsAddUp` | scripts/analyze_cache_evaluation.py:83-89 | with complete accounting the pairs' savings sum to the conditions', and the total is the control ledger less the shared one |
| `CacheCosts.SavingsAreExactUpToRounding` | scripts/analyze_cache_evaluation.py:87-89 | the reported total is within four micro-USD a pair of the exact difference |
| `CacheCosts.QualifiedMeans` | scripts/analyze_cache_evaluation.py:90-96 | a qualified result rests on priced, correct calls with both counters known, and on fewer micro-USD and more cache reads |
| `MomentUniqueness.BestIsUnique` | configuration/moment_content_integrity.go:28-39 | every group of copies has exactly one best row |
| `MomentUniqueness.ExactlyTheBestStays` | configuration/moment_content_integrity.go:20-43 | after de-duplication a row stores a group's object live exactly when it is the group's best row |
| `MomentUniqueness.BestIsMostAdvanced` | configuration/moment_content_integrity.go:20-24 | the row kept is approved if any copy is, then processed, then the oldest |
| `MomentUniqueness.OnlyCopiesAreHidden` | configuration/moment_content_integrity.go:24-26 | only the deletion time changes, and only of a row one of whose copies stays |
| `MomentUniqueness.DeduplicatedIsUnique` | configuration/moment_content_integrity.go:12-18 | the table then meets the partial unique index, NULL events being distinct |
| `MomentUniqueness.UniqueIsUntouched` | configuration/moment_content_integrity.go:27-43 | de-duplication changes nothing exactly when the table already meets the index |
| `MomentUniqueness.MomentsTable.HideCopies` | configuration/moment_content_integrity.go:27-43 | the rows after the UPDATE, ranked by the table before it |
| `MomentUniqueness.MomentsTable.Migrate` | configuration/moment_content_integrity.go:52-80 | with the index present nothing changes; otherwise the rows are de-duplicated and the index holds |
| `MomentUniqueness.NextKeepsInv` | configuration/moment_content_integrity.go:45-51 | every step of every replica and every write keeps the invariant |
| `MomentUniqueness.BuildNeverFails` | configuration/moment_content_integrity.go:48-50 | the index can always be built on the transaction's rows, and a late commit hides nothing |
| `MomentUniqueness.LaterBootsChangeNothing` | configuration/moment_content_integrity.go:45-61 | over any run, once the index exists it stays and only guests' writes change rows |
| `MomentUniqueness.CommitHidesOnlyCopies` | configuration/moment_content_integrity.go:48-51 | over any run a commit de-duplicates the rows as they are at that moment, so no write is lost |

## Left out

- Decoding of JSON and JSONL, `splitlines`, the scanner's line limit, CSV and report files: rows, calls and fields are already decoded; an undecodable row is a value of its own where the code refuses it.
- SHA-256 is a function with a 32-byte result, Ed25519 verification is the key a message verifies under, and the text prefix `sha256:` is dropped.
- Error messages are reduced to refusal kinds, and which of several simultaneous faults is reported first is stated only by `CacheCosts.CheckRows`.
- Parsing of UUIDs in the dependency manifest is the canonical text form it enforces; UUID, time and integer parsing in configuration patches are parameters.
- The relative-path and credential-name checks of `models/DeliveryPlanStepActivityEvent.go:265-298`, the executable allow-list, and the excluded and credential names of the sandbox are parameters: they are character tests without a property across functions.
- `Worktree`: the walk is a list of visits; symlink, inode and modification-time checks against concurrent changes, the copy to a destination, and the file count and byte total in the result are file-system effects or by-products.
- `OracleEvidence`: the names of the contract test and its cases are parameters; leases, task identities and controls of the sandbox report are not modelled.
- Primary-key updates, deletion of tasks and steps, SQL NULL in NOT NULL columns, event timestamps and event identifiers of the ledgers; a statement on guarded rows is its kind and the rows it would leave.
- InferenceReceipts: diagnostics that are not a JSON object are outside the model; the binding and accounting columns are two opaque texts.
- `IndexMigration`: the index definition check is one flag, discarding a connection always succeeds, nobody but the replicas changes the index, and the retry interval has no clock.
- `RateLimiter`: one key; the in-memory fallback is an input; the hashing and trimming of the identifier, overflow of the counter and the 250 ms timeout are not modelled.
- `CallbackNonces`: the transaction with its row lock is one step; header parsing and the body limit are not modelled.
- `EventConfigPatch`: spelled names are a field and an alias number, so the alias table itself is not modelled; a failed call is specified by its failure only, not by the fields already written.
- `GuestAnalytics`: days arrive formatted, totals are unbounded integers, and upper-casing is the part that comparison with the two status words can see.
- `CacheCosts`: one candidate; the scorer's checks of the corpus are the requirement that each pair has one call under each condition, and a call's correctness is an input.
- `MomentUniqueness`: a UUID is its number; the count written to the log is not modelled.
- HTTP handlers, routing, DTO copies, seeds, client set-up, the Firecracker and Docker controls, gateway quotas, lease claiming and plan graphs: plumbing, or code with no property beyond one body.
