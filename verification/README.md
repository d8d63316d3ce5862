# Verified model of the resource planner's hard core

A resource planner keeps demands for workforce and assets, has them approved line by line, and is moved once
from one database to another. This project models the parts of it whose correctness is not visible in a single
function, and proves what they are for. `dafny verify dfyconfig.toml` checks everything.

| file | what it models |
|---|---|
| `TestSharding.dfy` | the duration-weighted distribution of test modules over shards |
| `CascadeGraph.dfy` | the search that rejects foreign-key graphs SQL Server cannot create |
| `CutoverPreparation.dfy` | the fixpoint that decides which rows of the old database are transferred |
| `CutoverOutcome.dfy` | what the preparation excludes, clears and reports, in terms of the rows read alone |
| `CutoverTransfer.dfy` | the gates and the single-transaction transfer |
| `ApprovalRouting.dfy` | the approval scope and the approvers of a request line |
| `ApprovalAuthority.dfy` | when a request line is routed, by whom it is approved and why it fails, both ways |
| `ApprovalCycles.dfy` | the frozen requirements of a submitted demand and the fingerprint of its subject |
| `ApprovalVoting.dfy` | quorum voting, cut into its phases |
| `ApprovalProgress.dfy` | the read model of a cycle and its agreement with the commands |
| `ApprovalLifecycle.dfy` | the demand commands that open, close and replace cycles |
| `ApprovalRuns.dfy` | interleaved runs of all of these, as a state machine, and what every run keeps |
| `ApprovalPromises.dfy` | what a vote does, in terms of the stored demand alone |
| `CommandPromises.dfy` | what a demand command does, in the same terms |
| `ApprovalFaults.dfy` | three properties that an interleaving can break, with the exact steps that break them |
| `ApprovalOrder.dfy` | what the version of a demand guarantees, in the runs whose unguarded writes find the version they hold or were checked at |
| `ApprovalRaces.dfy` | two transactions that miss each other, and what they break |
| `ApprovalScenarios.dfy` | the runs of a new demand that reach these races |
| `ApprovalService.dfy` | the services that update the stored demand step by step |
| `RequestedHours.dfy` | worst-case hours of a demand with alternative periods |
| `Percentile.dfy` | interpolated percentiles |
| `IdentityRecovery.dfy` | the deterministic backfill of historical identities |
| `DeliveryBoard.dfy` | the versioned Delivery board and its history log |
| `DeliveryOutcome.dfy` | what every call of the Delivery service stores, or why it is refused |
| `DeliveryCalls.dfy` | the Delivery service, which updates the board step by step |

Three patterns recur. A service that updates its state step by step is a class whose methods equal a function of the
old state, and the properties are lemmas about that function. What such a function does is stated a second time,
without it, over the stored values alone: when an operation is refused and for which reason, and the whole state it
leaves (`VoteEnds`, `CommandEnds`, `Built`, `CarriedOver`, `AsPromised`, `AsksAtMost`, `GivenUpTo`, `UpdateItemEnds` and
their like), and the methods promise both. Concurrent behaviour is a step relation, and safety is an invariant over
every sequence of steps.

In the approval protocol a vote is four steps: an unlocked reading, the planning guard, the look-up of a cycle to
close, and the transaction from the compare-and-swap on. A demand command is a reading, on which it is checked, and a
writing: from the flush of the row on, the database holds it locked. Between any two steps any others may come. The
version of a demand is a compare-and-swap only for votes and for the commands that hand their expected version on
(edits of lines and periods, a request of cancellation, a cancellation that gives a version). A submission, a
correction, a plain edit and a change of contact write the version they read, plus one, and the status only if it
differs from the one in the row they hold. So the results come in several strengths.

- In every run of a new demand (`EveryRunIsSafe`, `SatisfiedSurvivesRuns`, `OnlyTheHolderMaterializes`): decisions come
  from frozen approvers, what is satisfied stays satisfied, and each cycle is finalized at most once, with its complete
  quorum, by the vote that holds the planning guard and under a planning version of its own. The view and the voting
  command agree in every state that a run can reach (`ViewAgreesInEveryRun`).
- Three properties hold of every command alone but not of every run, each with its exact condition: a step keeps the
  property if and only if it is not at fault, and a run keeps it at every moment if and only if none of its steps is
  (`StepExactly`, `FaultsAreExact`). A second cycle is opened exactly by a chosen alternative that found no cycle to
  close, was overtaken by another opening, and finds the version of its submitted row again and routing that succeeds.
  A completed cycle is overwritten exactly by a stale vote that looked it up open and expects the stored version, or by
  a chosen alternative that did so, finds the version of its row and can open another. A cycle is left open on a demand
  that is not submitted exactly by a command that opens one on the strength of the submitted status in its row.
- In the runs whose unguarded writes find the version of the row they hold (`OrderlyRun`) no step is at fault: a cycle
  is open only on a submitted demand, closed cycles are final, a version is spent once, and the prediction on which the
  planning guard depends is exact (`EveryOrderlyRunIsSound`, `VersionsAreSpentOnce`, `GuardIsNeverMissing`).
- That is not enough for the status, since a session may read its row again after its check. In the runs whose
  unguarded writes were also checked at the stored version (`CheckedRun`) a command does to the stored demand what it
  does alone, and a status is never written that its check would refuse (`CheckedStepIsTheCommand`,
  `EveryCheckedStatusIsAccepted`); so no correction takes a finalization back (`NoFinalizationIsTakenBack`). In general
  a correction that holds the current row does what it does alone if and only if the stored demand is still submitted,
  at the version it expects if it names one (`CorrectionIsTheCommandExactly`), and any correction takes a finalization
  back exactly when it finds the demand planned (`CorrectionTakesBackExactly`).

The races are real: each is reached by an explicit run of any new demand that can be submitted and, where votes or a
change of subject are needed, has requirements open to the voters and another subject; a directory and subjects for
which they happen are given (`TheRacesHappen`). An edit can write an old version back, so that a vote passes the
compare-and-swap at the very version it read and still completes a quorum it was not predicted to complete
(`LostVersionIsReached`); a stale submission can open a cycle on a demand that is to be corrected
(`StaleSubmissionIsReached`); a late closing can overwrite a completed cycle (`LateClosingIsReached`); a late opening
can leave two cycles open (`SecondOpeningIsReached`). By the above none of these runs is orderly. A correction can
take a finalization back (`CorrectionRaceIsReached`), and this even in an orderly run, if the session of the
correction reads its row again after the finalization (`OrderlyRunTakesBack`): `request_correction_command` checks one
reading and `update` selects the row again. That run is not a checked one.

Other results are negative and exact. A cycle that was just built matches its own subject if and only if the two
repositories that read the task of a line agree (`FreshCycleMatchesExactly`, with a concrete disagreement in
`FreshCycleCanMismatch`: one reads the task of the line, the other that of its work package). A target that enforces
its foreign keys accepts a transfer if and only if no row refers to a later batch of its own table and all references
outside the kept tables resolve (`TransferAll`, `ForwardReferenceIsRefused`). A Delivery story leaves an update at work
with an estimate and no reference if and only if the update takes it, unreferenced, out of the cancelled status
(`ReferenceIsCapturedExactly`, `RevivedStoryIsUncaptured`). The refusal "an explicit cycle is required" cannot occur,
because the code compares with a state name that is never reported (`InitializationIsNeverRequested`).

## Model

| member | source | states |
|---|---|---|
| `TestSharding.LightestShard` | tools/run_test_shard.py:92-99 | the chosen shard is least in load, then in tests, then in index |
| `TestSharding.ScheduleIsUnique` | tools/run_test_shard.py:87-90 | weight and name leave no tie: the modules have one placement order |
| `TestSharding.GreedyLoadIsSum` | tools/run_test_shard.py:83-102 | the running totals of a shard are the sums of the weights and tests placed on it |
| `TestSharding.NoSingleMoveHelps` | tools/run_test_shard.py:91-102 | along the placement, no shard plus a module is lighter than the shard that holds the module |
| `TestSharding.ListSchedulingBound` | tools/run_test_shard.py:91-102 | m times the load of a shard is at most the total plus (m - 1) times any module on it |
| `TestSharding.GreedyIsNearOptimal` | tools/run_test_shard.py:87-102 | Graham's bound for the greedy placement: 4/3 - 1/(3m) of the heaviest shard of any placement |
| `TestSharding.ShardsAreNearOptimal` | tools/run_test_shard.py:79-102 | whatever the assignment of whole modules, each reported weight is within 4/3 - 1/(3m) of its heaviest shard |
| `TestSharding.MovingOneModuleNeverHelps` | tools/run_test_shard.py:79-102 | moving one module never gives its new shard less than the old one had; the list bound for every module |
| `TestSharding.ReportedWeightsAreSums` | tools/run_test_shard.py:83-111 | every module gets one shard, and reported weights are the sums of the assigned modules and add up to the total |
| `TestSharding.SameSuiteSameCounts` | tools/run_test_shard.py:58-67 | what the plan depends on does not depend on the discovery order |
| `TestSharding.IndependentShardsCoverTheSuite` | tools/run_test_shard.py:51-111 | shards started separately run every test exactly once between them, and no module is split |
| `TestSharding.ShardKeepsDiscoveryOrder` | tools/run_test_shard.py:104-109 | each shard is a subsequence of the discovery order |
| `TestSharding.SumOfValues` | tools/run_test_shard.py:63-72 | the accumulated seconds and test counts are the sums over the known modules |
| `TestSharding.GroupByModule` | tools/run_test_shard.py:58-60 | each module is mapped to its tests in discovery order |
| `TestSharding.SortedModules` | tools/run_test_shard.py:87-90 | the loop visits the modules in the one placement order |
| `TestSharding.EstimateModules` | tools/run_test_shard.py:62-81 | a known module has its recorded weight, another its tests times the average of the known ones: what `EstimatesAreExact` says |
| `TestSharding.PlaceOne` | tools/run_test_shard.py:91-102 | one iteration adds the module to the lightest shard, in place |
| `TestSharding.PlaceModules` | tools/run_test_shard.py:83-102 | the loop over arrays computes the greedy placement |
| `TestSharding.SplitCases` | tools/run_test_shard.py:104-109 | every test is appended to the shard of its module |
| `TestSharding.NameOrderIsLexicographic` | tools/run_test_shard.py:87-90 | names are compared character by character: the first difference decides, or the shorter name comes first |
| `TestSharding.EstimatesAreExact` | tools/run_test_shard.py:62-81 | the weights of a plan are the recorded ones; without a record, the tests of a module at the average of the known modules, or at one second each |
| `TestSharding.PlanIsAsPromised` | tools/run_test_shard.py:62-111 | over the cases and recorded weights alone: whole modules, reported weights that are sums of module weights, each module on the shard lightest at its turn, and the 4/3 - 1/(3m) bound against any other assignment |
| `TestSharding.PartitionByModule` | tools/run_test_shard.py:51-111 | the buckets and weights are those of the plan; in plain terms, no module is split, each reported weight is the sum of the weights of the modules in its bucket, recorded where there is a record, and the shards keep the bound; if every module is recorded, all this over the recorded weights |
| `CascadeGraph.BuildGraph` | tools/check_sqlserver_readiness.py:226-244 | the multigraph of the cascading keys and its edge count, or the first key with several parents |
| `CascadeGraph.GraphHoldsTheKeys` | tools/check_sqlserver_readiness.py:226-244 | the children listed under a table are the tables of the cascading keys that reference it, parallel keys counted |
| `CascadeGraph.UniqueWalksMeanNoCycleAndSinglePaths` | tools/check_sqlserver_readiness.py:246-263 | unique walks from every table are exactly no cycle and single paths |
| `CascadeGraph.AllWalksFound` | tools/check_sqlserver_readiness.py:246-263 | when the stack is empty every walk has been found |
| `CascadeGraph.WitnessRefutes` | tools/check_sqlserver_readiness.py:252-262 | a reported cycle or double path really exists and refutes the graph |
| `CascadeGraph.FollowEdges` | tools/check_sqlserver_readiness.py:251-263 | following the edges of one table finds a witness, or counts each child once; it pushes only what it counts |
| `CascadeGraph.SearchFrom` | tools/check_sqlserver_readiness.py:247-263 | the search of one source ends, with a witness or with unique walks |
| `CascadeGraph.CheckCascadePaths` | tools/check_sqlserver_readiness.py:223-269 | the schema is accepted if and only if its graph has no cycle and single paths; a rejection carries a witness |
| `CutoverPreparation.VisitKeyProgress` | tools/cutover_sqlite_v2_to_sqlserver.py:753-820 | one visit changes nothing or lowers live rows plus filled cells |
| `CutoverPreparation.PassProgress` | tools/cutover_sqlite_v2_to_sqlserver.py:745-820 | so does a pass, hence the loop ends |
| `CutoverPreparation.EligibleRowsAreClosed` | tools/cutover_sqlite_v2_to_sqlserver.py:741-827 | on exit each reference of an eligible row to a kept table is unset, leads to an eligible row, or is reported missing |
| `CutoverPreparation.StartBalances` | tools/cutover_sqlite_v2_to_sqlserver.py:724-739 | initial exclusions are recorded row by row |
| `CutoverPreparation.RunBalances` | tools/cutover_sqlite_v2_to_sqlserver.py:744-820 | in every table eligible rows plus recorded exclusions stay the rows read |
| `CutoverPreparation.PreparationIsLeastFixpoint` | tools/cutover_sqlite_v2_to_sqlserver.py:741-827 | with independent keys the excluded rows are the least closed set, and the cleared cells those of dangling optional keys |
| `CutoverPreparation.OrderIsIrrelevant` | tools/cutover_sqlite_v2_to_sqlserver.py:741-827 | then eligibility and contents do not depend on the order of tables, rows or keys |
| `CutoverPreparation.ProgramSchemasAreIndependent` | tools/cutover_sqlite_v2_to_sqlserver.py:744-820 | in a schema of the program, whose keys have one column each, in no other key, and refer to columns that are never null, keys are independent |
| `CutoverPreparation.ProgramPreparationIsLeastFixpoint` | tools/cutover_sqlite_v2_to_sqlserver.py:741-827 | so its excluded rows are the least closed set |
| `CutoverPreparation.ProgramOrderIsIrrelevant` | tools/cutover_sqlite_v2_to_sqlserver.py:741-827 | and eligibility and contents depend neither on the order of tables and rows nor on that of the keys of a table |
| `CutoverPreparation.SharedColumnsMakeOrderMatter` | tools/cutover_sqlite_v2_to_sqlserver.py:741-827 | why that shape is required: in a schema the program does not have, with two keys on one column, the order of the keys decides whether the row is transferred |
| `CutoverPreparation.CopyInventory` | tools/cutover_sqlite_v2_to_sqlserver.py:1133-1182 | the rows of the kept tables, table by table, and the number of rows of every table |
| `CutoverPreparation.InventoryIsComplete` | tools/cutover_sqlite_v2_to_sqlserver.py:1144-1182 | every row of a kept table is read |
| `CutoverPreparation.RowPreparation.constructor` | tools/cutover_sqlite_v2_to_sqlserver.py:724-743 | the preparation holds all rows read, with their initial exclusions |
| `CutoverPreparation.RowPreparation.Load` | tools/cutover_sqlite_v2_to_sqlserver.py:729-739 | a row read is kept with its initial exclusion, if any: `CutoverOutcome.InitialExclusionExactly` says which |
| `CutoverPreparation.RowPreparation.Visit` | tools/cutover_sqlite_v2_to_sqlserver.py:753-820 | a dangling key clears the row's cells or excludes the row, a missing parent is reported once |
| `CutoverPreparation.RowPreparation.VisitKeys` | tools/cutover_sqlite_v2_to_sqlserver.py:750-820 | the keys of a row are visited until it is excluded |
| `CutoverPreparation.RowPreparation.Prepare` | tools/cutover_sqlite_v2_to_sqlserver.py:744-820 | the loop runs to the state where a pass changes nothing |
| `CutoverPreparation.RowPreparation.Eligible` | tools/cutover_sqlite_v2_to_sqlserver.py:822-827 | the rows of a table that are not excluded, in reading order |
| `CutoverPreparation.RowPreparation.ReportLine` | tools/cutover_sqlite_v2_to_sqlserver.py:1006-1037 | at any point of the preparation, eligible and excluded rows add up to the rows read of a kept table, and to the rows counted of any other |
| `CutoverPreparation.RowPreparation.Report` | tools/cutover_sqlite_v2_to_sqlserver.py:1006-1037 | so for every line of the report |
| `CutoverPreparation.InventoryReport` | tools/cutover_sqlite_v2_to_sqlserver.py:1276-1357 | inventory, preparation and report together: in every line the rows of the source are the eligible plus the excluded ones, so no row is lost |
| `CutoverOutcome.DemoExactly` | tools/cutover_sqlite_v2_to_sqlserver.py:680-693 | a text is a demonstration identifier exactly if, after leading blanks, it spells DEMO- in either case |
| `CutoverOutcome.InitialExclusionExactly` | tools/cutover_sqlite_v2_to_sqlserver.py:696-703 | a row starts excluded exactly if it is an account of the development issuer or an identity column holds a demonstration identifier; the reason says which |
| `CutoverOutcome.GoesExactly` | tools/cutover_sqlite_v2_to_sqlserver.py:741-827 | what is excluded in the end, over the rows read: the marked rows, and those whose required reference leads to excluded rows only |
| `CutoverOutcome.PreparationKeeps` | tools/cutover_sqlite_v2_to_sqlserver.py:716-845 | in a schema of the program, exactly these rows are excluded, and the eligible rows of a table are the others, in order, with exactly the dangling optional references cleared |
| `CutoverOutcome.NoMarkedRowIsEligible` | tools/cutover_sqlite_v2_to_sqlserver.py:696-739 | no eligible row is an account of the development issuer or a demonstration row |
| `CutoverOutcome.PreparationReports` | tools/cutover_sqlite_v2_to_sqlserver.py:753-845 | each report of a missing parent names a row and a reference that no row read answers; each exclusion is listed with its row and its reason, a lost required parent or a mark, and each cleared reference with its row |
| `CutoverOutcome.NothingMissing` | tools/cutover_sqlite_v2_to_sqlserver.py:753-781 | nothing is missing if every reference of an unmarked row has its parent, and only if every reference of a row that stays has |
| `CutoverOutcome.PrepareKeepRows` | tools/cutover_sqlite_v2_to_sqlserver.py:716-845 | loading and preparing leave exactly this |
| `CutoverTransfer.CheckSource` | tools/cutover_sqlite_v2_to_sqlserver.py:1236-1284 | the first gate passes exactly when the source may be read |
| `CutoverTransfer.CheckTarget` | tools/cutover_sqlite_v2_to_sqlserver.py:1286-1381 | the second gate passes exactly when the prepared rows and the target allow a transfer |
| `CutoverTransfer.GatesExactly` | tools/cutover_sqlite_v2_to_sqlserver.py:1205-1381 | both gates pass exactly if nothing is missing and each condition holds, among them a verified backup and a pinned, ready baseline on an apply, and a target without rows outside the rebuilt tables |
| `CutoverTransfer.Target.Begin` | tools/cutover_sqlite_v2_to_sqlserver.py:1396-1397 | a transaction starts from the committed rows |
| `CutoverTransfer.Target.Insert` | tools/cutover_sqlite_v2_to_sqlserver.py:1044-1052 | an accepted batch is appended, a rejected one changes nothing |
| `CutoverTransfer.Target.Commit` | tools/cutover_sqlite_v2_to_sqlserver.py:1416-1416 | only a successful commit changes the committed rows |
| `CutoverTransfer.Target.Rollback` | tools/cutover_sqlite_v2_to_sqlserver.py:1417-1420 | a rollback forgets the transaction |
| `CutoverTransfer.InsertBatches` | tools/cutover_sqlite_v2_to_sqlserver.py:1044-1052 | whatever the batch size, exactly the given rows are appended in order; a target that enforces its foreign keys accepts them exactly when each batch resolves |
| `CutoverTransfer.TransferOrderMembers` | tools/cutover_sqlite_v2_to_sqlserver.py:998-1003 | the order lists exactly the kept tables |
| `CutoverTransfer.TransferOrderDistinct` | tools/cutover_sqlite_v2_to_sqlserver.py:998-1003 | and each once |
| `CutoverTransfer.ParentsStayFirst` | tools/cutover_sqlite_v2_to_sqlserver.py:998-1003 | parents come first if they do in the order of the schema |
| `CutoverTransfer.TransferStaysClosed` | tools/cutover_sqlite_v2_to_sqlserver.py:1399-1403 | in a parents-first order, after each whole table every reference to a kept table resolves inside the target |
| `CutoverTransfer.Validate` | tools/cutover_sqlite_v2_to_sqlserver.py:1062-1130 | the check passes exactly when counts, identifiers and business links agree with the eligible rows |
| `CutoverTransfer.FaithfulTransferValidates` | tools/cutover_sqlite_v2_to_sqlserver.py:1062-1130 | a target that received exactly the eligible rows passes the check |
| `CutoverTransfer.TableIsAcceptedExactly` | tools/cutover_sqlite_v2_to_sqlserver.py:1399-1403 | in a parents-first order an enforcing target accepts a table exactly when no row refers to a later batch of it and its references outside the kept tables resolve |
| `CutoverTransfer.BatchesByIndex` | tools/cutover_sqlite_v2_to_sqlserver.py:1044-1052 | no row refers to a later batch exactly if each refers to rows of its own 500 or of earlier ones |
| `CutoverTransfer.ForwardReferenceIsRefused` | tools/cutover_sqlite_v2_to_sqlserver.py:1044-1052 | 501 rows of a table that refers to itself, the first to the last: nothing is missing, and the first batch is refused |
| `CutoverTransfer.InsertTables` | tools/cutover_sqlite_v2_to_sqlserver.py:1399-1407 | the tables received are exactly the eligible rows; without an injected fault a target that enforces its foreign keys lets the loop end exactly when the rows are transferable |
| `CutoverTransfer.CommitChecked` | tools/cutover_sqlite_v2_to_sqlserver.py:1409-1416 | the committed rows become the validated ones or stay, and without a fault the checks pass |
| `CutoverTransfer.TransferAll` | tools/cutover_sqlite_v2_to_sqlserver.py:1396-1420 | the attempt commits baseline plus eligible rows, or leaves the committed rows alone; without a fault, an enforcing target lets it succeed exactly when the rows are transferable, a permissive one always |
| `CutoverTransfer.LoadedIsTransferred` | tools/cutover_sqlite_v2_to_sqlserver.py:1399-1416 | a committed load holds exactly the eligible rows, and is closed if the order is parents-first |
| `CutoverTransfer.ApplyTransfer` | tools/cutover_sqlite_v2_to_sqlserver.py:1388-1456 | code 0 with the transferred rows, or code 3 with the target unchanged; without a fault, code 0 exactly when an enforcing target can take the rows |
| `CutoverTransfer.KeptTablesAreEmpty` | tools/cutover_sqlite_v2_to_sqlserver.py:905-996 | on a clean target every table of the order is empty |
| `CutoverTransfer.RunCutover` | tools/cutover_sqlite_v2_to_sqlserver.py:1205-1456 | code 2 exactly when a gate fails, code 3 when the inventory of an accepted source does; the target changes only on an apply with code 0, and then holds its baseline plus exactly the eligible rows. In plain terms: code 0 only if all gates pass, and not 2 if they do and every reference of an unmarked row has its parent; after a successful apply no kept table holds an account of the development issuer or a demonstration row, every row read that is neither and whose required parents do not all go is there, with only dangling optional references cleared, and every reference between kept tables resolves; without a fault an enforcing target gives code 0 exactly when the rows refer back only |
| `ApprovalRouting.CombinedApprovers` | app/application/approval_cycles.py:327-399 | accepted resolutions share one scope, and the frozen approvers are exactly theirs, active and permitted |
| `ApprovalRouting.AcceptedLine` | app/application/approval_cycles.py:317-399 | the same for the proposals of one line |
| `ApprovalRouting.ResolveProposals` | app/application/approval_cycles.py:322-399 | the loop stops at the first blocked proposal, else joins approvers, sources and scopes |
| `ApprovalRouting.WorkforceAuthority` | app/application/approval_scopes.py:636-905 | a workforce line is resolved by the only active scope of its explicit class, else its task, else the class of the proposed resource, else the class of the task; its approvers are exactly the active, permitted users of that scope and of the proposed resource |
| `ApprovalRouting.AssetAuthority` | app/application/approval_scopes.py:479-592 | an asset line is resolved by the only active scope of its type, and approved by exactly its active, permitted users and those of the proposed asset |
| `ApprovalRouting.SameScopeForAllProposals` | app/application/approval_scopes.py:594-860 | unless the proposed resource decides, any two accepted proposals of a line have the same scope |
| `ApprovalRouting.IncompatibleExactly` | app/application/approval_cycles.py:353-371 | the incompatibility is raised exactly when nothing is blocked and two scopes differ |
| `ApprovalRouting.NoIncompatibility` | app/application/approval_cycles.py:353-371 | hence never on an asset line, with an explicit class or with a usable task scope |
| `ApprovalRouting.ProposalsCanDisagree` | app/application/approval_scopes.py:636-682 | without them two resources of different classes do lead to two scopes |
| `ApprovalAuthority.ScopeResolvesExactly` | app/application/approval_scopes.py:442-905 | candidates give a scope exactly if it is the only active one, or the only one and active, and an active, permitted user approves for it or for the resource |
| `ApprovalAuthority.WorkforceResolvesExactly` | app/application/approval_scopes.py:594-905 | a workforce line resolves to a scope if and only if the line is active, its task known and active, and the class or task that decides it gives the scope, the proposed resource being known and active where it decides |
| `ApprovalAuthority.AssetResolvesExactly` | app/application/approval_scopes.py:479-592 | an asset line does if and only if it is active, its type known and active and gives the scope, and its proposed asset known, active and of that type |
| `ApprovalAuthority.CandidatesFailExactly` | app/application/approval_scopes.py:442-905 | candidates fail for the reason that applies: none, several, an inactive one, or nobody to approve |
| `ApprovalAuthority.WorkforceDiagnosticIsTrue` | app/application/approval_scopes.py:594-905 | the diagnostic of a workforce line says what is the case |
| `ApprovalAuthority.AssetDiagnosticIsTrue` | app/application/approval_scopes.py:479-592 | so does that of an asset line |
| `ApprovalAuthority.AssetKindExactly` | app/application/approval_scopes.py:594-614 | a line is an asset line exactly if its kind spells ASSET in either case |
| `ApprovalAuthority.ResolvesExactly` | app/application/approval_scopes.py:594-614 | both kinds together |
| `ApprovalAuthority.RoutingEndsSo` | app/application/approval_cycles.py:322-399 | all proposals of a line: accepted exactly if all resolve to one scope, with exactly the approvers and sources of each; else blocked at the first that does not, or incompatible |
| `ApprovalCycles.BuildRequirement` | app/application/approval_cycles.py:317-399 | the requirement of a line, or why it cannot be routed |
| `ApprovalCycles.RequirementEnds` | app/application/approval_cycles.py:317-399 | a line gives its frozen requirement if and only if it has inputs, exists, and all its proposals resolve to one scope; else the reason that applies |
| `ApprovalCycles.CycleIsBuilt` | app/application/approval_cycles.py:438-507 | a cycle is built if and only if there is a line and every line can be routed, and freezes just that; else the first line that cannot is named |
| `ApprovalCycles.CollectRequirements` | app/application/approval_cycles.py:438-507 | the loop over the active lines |
| `ApprovalCycles.BuildCycle` | app/application/approval_cycles.py:438-507 | one requirement per active line and the fingerprint of their entries, or the first routing error; in plain terms, a cycle if and only if there is a line and every line resolves to one scope |
| `ApprovalCycles.NewCycle` | app/application/approval_cycles.py:438-507 | a new cycle freezes, for each active line, its task, scope, approvers and proposal |
| `ApprovalCycles.RequirementIsFaithful` | app/application/approval_cycles.py:471-497 | each frozen requirement has a scope and at least one approver |
| `ApprovalCycles.SameRoutingExactly` | app/domain/approval_cycles.py:113-117 | canonical routings are equal exactly when they have the same lines and agree on each |
| `ApprovalCycles.CanonicalExactly` | app/domain/approval_cycles.py:34-75 | two entries have one canonical form exactly if task, scopes without order or repetition, sources, periods without order, and the proposals their sources make count agree |
| `ApprovalCycles.AuthorizationsExactly` | app/domain/approval_cycles.py:78-111 | the canonical authorizations are equal exactly if, identity by identity, content and competencies agree one by one |
| `ApprovalCycles.EntryUnchangedExactly` | app/domain/approval_cycles.py:34-75 | two entries of a line are canonically equal exactly when task, periods, counted proposal and counted asset are |
| `ApprovalCycles.MatchesExactlyWhileUnchanged` | app/application/approval_cycles.py:521-586 | a stored cycle matches the current subject if and only if request fields, authorizations, lines and counted line inputs are those of its creation |
| `ApprovalCycles.FreshCycleMatchesExactly` | app/application/approval_cycles.py:460-586 | a fresh cycle matches its own subject if and only if both repositories read the same tasks |
| `ApprovalCycles.FreshCycleCanMismatch` | app/infrastructure/sql/approval_cycle_repository.py:164-188 | a line without a task under a work package with one is a case where they do not |
| `ApprovalCycles.ScopeConfigurationIsIrrelevant` | app/application/approval_cycles.py:568-582 | later changes of the scope configuration do not change the fingerprint |
| `ApprovalVoting.ProjectQuorum` | app/application/approval_voting.py:147-171 | a requirement is satisfied exactly when one of its frozen approvers approved it |
| `ApprovalVoting.QuorumExactly` | app/application/approval_voting.py:147-171 | every requirement counts, as satisfied exactly if some decision approves it for one of its frozen approvers, else as remaining |
| `ApprovalVoting.SatisfiedIsMonotone` | app/application/approval_voting.py:147-171 | further decisions never undo a satisfied requirement |
| `ApprovalVoting.OwnDecisionsSuffice` | app/infrastructure/sql/approval_cycle_repository.py:582-608 | reading only the decisions of the cycle gives the quorum of all decisions |
| `ApprovalVoting.ActiveCycleExactly` | app/infrastructure/sql/approval_cycle_repository.py:388-412 | the active cycle is the only open one, absent when none is open, a conflict when two are |
| `ApprovalVoting.NamedCycle` | app/application/approval_voting.py:222-245 | the cycle accepted is open and the one the command names |
| `ApprovalVoting.InitializationIsNeverRequested` | app/application/approval_voting.py:222-235 | without an active cycle the refusal is always "missing" |
| `ApprovalVoting.TargetsExactly` | app/application/approval_voting.py:247-277 | with one requirement per line the targets are exactly the named requirements and those of the named lines |
| `ApprovalVoting.ApprovalsAreBallots` | app/infrastructure/sql/approval_cycle_repository.py:736-748 | an action appends one approval of the actor per target of the cycle, and nothing else |
| `ApprovalProgress.ReadProgress` | app/application/approval_progress.py:111-238 | one pass lists the requirements and lines the actor may approve |
| `ApprovalProgress.ApprovableExactly` | app/application/approval_progress.py:165-174 | they are the unsatisfied requirements of which he is a frozen approver |
| `ApprovalProgress.VotingAddsExactly` | app/application/approval_voting.py:393-402 | an action satisfies in addition exactly its targets of which the actor is a frozen approver |
| `ApprovalProgress.ActionIsIrrelevant` | app/application/approval_voting.py:393-402 | the predicted quorum does not depend on the identifier the action will get |
| `ApprovalProgress.ReadingIgnoresVersion` | app/application/approval_voting.py:415-430 | the second reading under the version guard sees what cycles and subject determine, not the version |
| `ApprovalProgress.AcceptedReadingSucceeds` | app/application/approval_voting.py:403-521 | alone and at the current version, an accepted reading is recorded or finalized as predicted, unless the planning guard or the revision is missing |
| `ApprovalProgress.SingleVoteReads` | app/application/approval_voting.py:348-404 | what the reading phase answers to a vote on one requirement |
| `ApprovalProgress.ShownExactly` | app/application/approval_progress.py:145-174 | a requirement of the active cycle is shown as approvable exactly when the demand is submitted, it is unsatisfied and open to the active, permitted actor |
| `ApprovalProgress.ViewAgreesWithVote` | app/application/approval_progress.py:145-174 | an unsatisfied requirement is shown exactly when a vote on it passes every check, both ways |
| `ApprovalProgress.ShownIsAccepted` | app/application/approval_voting.py:348-521 | a vote on a shown requirement is accepted, or finds the subject changed and closes the cycle; only planning and revision can refuse it |
| `ApprovalProgress.VoteSatisfiesTargets` | app/application/approval_voting.py:432-444 | an accepted vote satisfies each of its targets |
| `ApprovalProgress.ApproveAllIsEligible` | app/application/approval_voting.py:523-551 | approving everything eligible is refused for eligibility exactly when nothing is eligible, never by the vote it makes |
| `ApprovalProgress.TargetsAreNotRefused` | app/application/approval_voting.py:385-430 | a vote on known targets open to the actor is never refused for its targets |
| `ApprovalLifecycle.ActiveIsLast` | app/infrastructure/sql/approval_cycle_repository.py:388-412 | when only the last cycle can be open, it is the active one if it is |
| `ApprovalLifecycle.OpeningKeeps` | app/infrastructure/sql/approval_cycle_repository.py:477-576 | opening a cycle next to closed ones keeps the demand coherent, and the new cycle is the active one |
| `ApprovalLifecycle.ClosingKeeps` | app/infrastructure/sql/approval_cycle_repository.py:781-932 | closing the active cycle leaves none, keeps snapshots and decisions and touches no closed cycle |
| `ApprovalLifecycle.InvalidatingKeeps` | app/application/demand_service.py:172-185 | invalidating at the version just read succeeds, leaves no active cycle and moves the version if there was one |
| `ApprovalLifecycle.InitializingKeeps` | app/application/approval_cycles.py:401-519 | a successful initialization opens exactly one cycle on the current subject |
| `ApprovalLifecycle.RefreshKeeps` | app/application/demand_service.py:187-228 | a refresh keeps the demand as it is, or replaces its cycle and moves the version twice |
| `ApprovalLifecycle.SubmissionKeeps` | app/application/demand_service.py:159-170 | the hook of a submission keeps the demand as it is, or leaves one open cycle on a submitted demand |
| `ApprovalLifecycle.RenewalKeeps` | app/application/business_contact_admin.py:346-364 | so does the hook of a change of contact |
| `ApprovalLifecycle.HooksKeep` | app/application/demand_service.py:159-228 | whatever the status, every hook keeps frozen approvers, closed cycles and at most one open cycle, and completes none |
| `ApprovalLifecycle.CommandsKeep` | app/application/demand_service.py:761-1741 | every command that nothing interrupts keeps: one open cycle at most, only on a submitted demand, decisions by frozen approvers only; closed cycles are final, none is completed, and the version moves with every change |
| `ApprovalLifecycle.NewCycleHasNoVotes` | app/application/approval_cycles.py:427-436 | no earlier decision counts for a new cycle |
| `ApprovalLifecycle.RefreshReplaces` | app/application/demand_service.py:187-228 | a refresh keeps the open cycle if it matches, else invalidates it and opens one without any vote |
| `ApprovalLifecycle.EditsLeaveAMatchingCycle` | app/application/demand_service.py:879-1268 | an edit of a submitted demand leaves an open cycle, and it matches the edited subject if the old one did or, being fresh, exactly when both repositories read the same tasks |
| `ApprovalLifecycle.PlainEditsKeepTheCycle` | app/application/demand_service.py:761-885 | an edit of a submitted demand that names no business field keeps its cycles, and the open one matches exactly if it matches the subject as edited |
| `ApprovalLifecycle.SubmissionsOpenAFreshCycle` | app/application/demand_service.py:678-1411 | a submission, a required reapproval or a change of contact after an approval opens a cycle on the submitted subject, without any vote |
| `ApprovalLifecycle.ClosingCommandsLeaveNoCycle` | app/application/demand_service.py:1501-1741 | a correction, a cancellation or its request leaves no active cycle and moves the version once, or twice with a cycle to close |
| `ApprovalRuns.FinalizationStays` | app/application/approval_voting.py:478-497 | a finalization keeps its closed cycle, its revision and its complete quorum |
| `ApprovalRuns.ClosingLookedGrows` | app/infrastructure/sql/approval_cycle_repository.py:876-932 | closing a cycle that was looked up before the compare-and-swap keeps what is frozen, whatever has happened to it since |
| `ApprovalRuns.PerformGrows` | app/infrastructure/sql/demand_repository.py:1789-1947 | so does the writing of a row and its hook, however old the row |
| `ApprovalRuns.ReselectionGrows` | app/application/demand_service.py:1245-1268 | and a chosen alternative; it keeps at most one open cycle unless another was opened since it found none |
| `ApprovalRuns.CommandsGrow` | app/application/demand_service.py:761-1741 | whatever it read, no command completes a cycle, loses a decision or reopens a closed cycle |
| `ApprovalRuns.RecordingKeeps` | app/application/approval_voting.py:432-440 | recorded decisions come from frozen approvers of their requirement |
| `ApprovalRuns.VoteResult` | app/application/approval_voting.py:409-521 | what a successful vote leaves, by its outcome; it finalizes only with the guard, a revision and a complete quorum |
| `ApprovalRuns.CompleteMeansAllSatisfied` | app/application/approval_voting.py:42-44 | a complete quorum has a requirement, and all are satisfied |
| `ApprovalRuns.VotesKeep` | app/application/approval_voting.py:409-521 | a vote moves the version by one, touches no closed cycle and keeps the books: a finalization for each completed cycle, once, under increasing planning versions |
| `ApprovalRuns.NextIsSafe` | app/application/approval_voting.py:348-521 | every step of every interleaving keeps the invariant of all runs |
| `ApprovalRuns.RunsAreSafe` | app/application/approval_voting.py:348-521 | so does every run; cycles and decisions are only added |
| `ApprovalRuns.EveryRunIsSafe` | app/application/approval_voting.py:348-521 | in every run of a new demand: decisions by frozen approvers; each cycle materialized at most once, with all requirements satisfied and a planning version of its own; each completed cycle materialized |
| `ApprovalRuns.SatisfiedNeverShrinks` | app/application/approval_voting.py:147-171 | what is satisfied in a cycle stays satisfied |
| `ApprovalRuns.SatisfiedSurvivesRuns` | app/application/approval_voting.py:147-171 | over every run |
| `ApprovalRuns.OnlyTheHolderMaterializes` | app/application/approval_voting.py:466-497 | in every run a finalization is made by the vote that holds the planning guard, under the version of the guard |
| `ApprovalRuns.ViewAgreesInEveryRun` | app/application/approval_progress.py:145-174 | in every state a run of a new demand reaches, a requirement is shown exactly when a vote on it passes every check |
| `ApprovalRuns.ShownIsAcceptedInEveryRun` | app/application/approval_voting.py:348-521 | and a vote on what is shown is accepted or closes a stale cycle, unless planning or revision refuses it |
| `ApprovalRuns.ApproveAllIsEligibleInEveryRun` | app/application/approval_voting.py:523-551 | and approving everything is refused for eligibility exactly when nothing is eligible |
| `ApprovalRuns.VoteIsAnUninterruptedRun` | app/application/approval_voting.py:348-521 | the voting command is the run in which its phases follow one another |
| `ApprovalRuns.CurrentRowIsEnough` | app/infrastructure/sql/demand_repository.py:1789-1947 | a session whose row is current writes what the command alone would write |
| `ApprovalRuns.CommandIsAnUninterruptedRun` | app/application/demand_service.py:761-1741 | a command is the run in which its reading and its writing follow one another |
| `ApprovalPromises.ReadingExactly` | app/application/approval_voting.py:222-346 | what a reading finds: the only open cycle, named by the command, stale or current, with targets that are known and the actor's to approve; or the refusal that applies |
| `ApprovalPromises.CompletesExactly` | app/application/approval_voting.py:385-402 | a vote is predicted to complete the quorum exactly if every requirement is satisfied or asked for |
| `ApprovalPromises.BeginExactly` | app/application/approval_voting.py:348-402 | the unlocked phase as a whole |
| `ApprovalPromises.PlanningExactly` | app/infrastructure/sql/planning_version.py:80-119 | the planning is taken exactly if the expected version, if any, is the stored one and at least 1, and moves by one; a conflict exactly if it is at least 1 and another |
| `ApprovalPromises.GuardExactly` | app/application/approval_voting.py:403-408 | the same for the guard step of a run: the session that is refused ends, and nothing is stored |
| `ApprovalPromises.FinishEnds` | app/application/approval_voting.py:409-521 | how the transaction of a vote ends, whatever came between its phases: recorded, finalized, or refused for the reason that applies, with the whole state it leaves |
| `ApprovalPromises.VoteEndsSo` | app/application/approval_voting.py:348-521 | how a vote ends that nothing interrupts, with the whole state it leaves |
| `ApprovalPromises.PlanningConflictExactly` | app/application/approval_voting.py:403-408 | a vote is refused for the planning exactly if it would complete the quorum and expects another version; a finalization has the version after the one it expects, and no other vote moves the planning |
| `ApprovalPromises.AllEndsSo` | app/application/approval_voting.py:523-551 | approving everything eligible ends as a vote on all that is the actor's in the named cycle, or is refused because nothing is |
| `ApprovalPromises.ViewEndsSo` | app/application/approval_progress.py:111-238 | the view shows the open cycle, or the latest if none is open, with its quorum and, in its order, exactly the unsatisfied requirements the actor may approve now |
| `CommandPromises.ChecksExactly` | app/application/demand_service.py:761-1741 | a command is accepted exactly if it may be given in that status, is permitted, and names the stored version where it must; else the first reason that applies |
| `CommandPromises.CommandEndsSo` | app/application/demand_service.py:616-1741 | how every command ends: refused by its checks, by the approved envelope or by the routing of the cycle it needs; or with exactly this row and these cycles, the one it opens being frozen on the new subject without a decision |
| `ApprovalFaults.SecondOpeningExactly` | app/infrastructure/sql/approval_cycle_repository.py:477-576 | a command leaves a second open cycle exactly if it is a chosen alternative that found none to close while another was opened, at the version of its submitted row and with routing that succeeds |
| `ApprovalFaults.ClosingLookedLasts` | app/infrastructure/sql/approval_cycle_repository.py:876-932 | a closing that succeeds changes a closed cycle exactly if the cycle it looked up is completed by now and the version is the stored one |
| `ApprovalFaults.VoteOverwritesExactly` | app/application/approval_voting.py:319-346 | a vote changes a closed cycle exactly if it found its cycle stale, looked it up open, expects the stored version, and the cycle is completed by now |
| `ApprovalFaults.OverwritingExactly` | app/application/demand_service.py:187-228 | a command does exactly if it is a chosen alternative in that position, at the version of its row, that can open another cycle |
| `ApprovalFaults.HookOpensExactly` | app/application/demand_service.py:159-228 | without an open cycle a hook leaves one exactly if it is an opening one and the status it sees is submitted |
| `ApprovalFaults.UnsubmittedExactly` | app/application/demand_service.py:1400-1411 | a command leaves a cycle open on a demand that is not submitted exactly if it opens it on the submitted status of the row it holds |
| `ApprovalFaults.StepExactly` | app/infrastructure/sql/demand_repository.py:1789-1947 | every step of every safe state keeps each of the three properties if and only if it is not at fault |
| `ApprovalFaults.RunExactly` | app/infrastructure/sql/demand_repository.py:1789-1947 | a run keeps a property at every moment if and only if no step is at fault |
| `ApprovalFaults.FaultsAreExact` | app/infrastructure/sql/demand_repository.py:1789-1947 | so for every run of a new demand |
| `ApprovalFaults.OneCycleIsOpen` | app/infrastructure/sql/approval_cycle_repository.py:388-412 | at every moment of a run of a new demand only the last cycle can be open, if and only if no step opens a second one |
| `ApprovalOrder.ClosingLookedKeeps` | app/infrastructure/sql/approval_cycle_repository.py:876-932 | a closing that expects a version no newer than the one it looked at closes the active cycle |
| `ApprovalOrder.WrittenKeeps` | app/infrastructure/sql/demand_repository.py:1789-1947 | a command whose write is guarded, or finds the version it read, keeps the demand well-formed and moves its version up |
| `ApprovalOrder.NextKeeps` | app/application/approval_voting.py:348-521 | every orderly step keeps the strong invariant |
| `ApprovalOrder.OrderlyRunsAreSound` | app/application/approval_voting.py:348-521 | so does every orderly run, and the store only evolves along it: closed cycles are final and every change moves the version up |
| `ApprovalOrder.EveryOrderlyRunIsSound` | app/application/approval_voting.py:348-521 | in every orderly run of a new demand one cycle is open at most, only on a submitted demand, the finalized cycles are exactly the completed ones, and no step is at fault |
| `ApprovalOrder.OrderlyBreaksNothing` | app/infrastructure/sql/demand_repository.py:1789-1947 | no orderly step of a sound state is at fault |
| `ApprovalOrder.CheckedWriteIsTheCommand` | app/infrastructure/sql/demand_repository.py:1789-1947 | a write whose check was made at the stored version is the command alone, whatever row it holds |
| `ApprovalOrder.GuardedWriteIsTheCommand` | app/infrastructure/sql/request_version.py:10-51 | so is a guarded write that is not refused |
| `ApprovalOrder.CheckedStepIsTheCommand` | app/application/demand_service.py:761-1741 | in a checked step a command that writes a row is refused or does what it does alone to a demand that its check accepts |
| `ApprovalOrder.EveryCheckedStatusIsAccepted` | app/application/demand_service.py:761-1741 | in a checked run of a new demand a status changes only by a finalization or by a command that its check accepts on the stored demand |
| `ApprovalOrder.NoFinalizationIsTakenBack` | app/application/demand_service.py:1501-1533 | in a checked run no correction takes a finalization back |
| `ApprovalOrder.CorrectionIsTheCommandExactly` | app/application/demand_service.py:1501-1533 | a correction that holds the current row is what it does alone if and only if the stored demand is submitted, at the version it expects if it names one |
| `ApprovalOrder.CorrectionTakesBackExactly` | app/infrastructure/sql/demand_repository.py:795-805 | any correction takes a finalization back if and only if it finds the demand planned, its row not reread as to be corrected and at most one cycle open |
| `ApprovalOrder.VersionsAreSpentOnce` | app/infrastructure/sql/request_version.py:10-51 | in an orderly run, after a recorded vote no later vote expecting the same version is accepted |
| `ApprovalOrder.PredictionIsExact` | app/application/approval_voting.py:392-444 | if the expected version was reached at the reading and the compare-and-swap succeeds, the quorum completes exactly as predicted |
| `ApprovalOrder.GuardIsNeverMissing` | app/application/approval_voting.py:466-474 | so in every orderly run of a new demand the missing-guard conflict is unreachable with an expected version that was reached at the reading |
| `ApprovalRaces.SingleVoteBegins` | app/application/approval_voting.py:348-404 | how a vote on one of two open requirements starts, not predicted to complete |
| `ApprovalRaces.FutureVersionMissesTheGuard` | app/application/approval_voting.py:466-474 | with an expected version that became current only after the reading the conflict occurs, and nothing is materialized |
| `ApprovalRaces.LostVersionMissesTheGuard` | app/infrastructure/sql/demand_repository.py:1945-1946 | a run of seven steps in which an edit writes an old version back: the conflict occurs at the very version the vote read, and that version is spent twice |
| `ApprovalRaces.CorrectionOverwritesAFinalization` | app/application/demand_service.py:1501-1533 | a correction that read the demand as submitted takes a finalization back; the materialization stays |
| `ApprovalRaces.StaleSubmissionOpensACycle` | app/application/demand_service.py:1400-1411 | a submission that trusts a row read again opens a cycle on a demand that is to be corrected |
| `ApprovalRaces.LateClosingOverwritesACompletion` | app/application/approval_voting.py:319-346 | a stale vote expecting a later version overwrites a cycle completed since |
| `ApprovalRaces.LateOpeningOpensTwo` | app/application/demand_service.py:213-228 | an alternative that is overtaken leaves two open cycles, and the demand can no longer be approved |
| `ApprovalScenarios.LostVersionIsReached` | app/infrastructure/sql/demand_repository.py:1945-1946 | a new demand with two requirements reaches the missing guard at the version the vote read |
| `ApprovalScenarios.FutureVersionIsReached` | app/application/approval_voting.py:466-474 | and at a version that came after the reading |
| `ApprovalScenarios.StaleSubmissionIsReached` | app/application/demand_service.py:1400-1411 | a new demand that can be submitted reaches a cycle open on a demand that is to be corrected |
| `ApprovalScenarios.SecondOpeningIsReached` | app/application/demand_service.py:187-228 | one whose subject has a routed alternative reaches two open cycles |
| `ApprovalScenarios.LastVoteFinalizes` | app/application/approval_voting.py:403-521 | a vote on the last requirement, with the planning guard, finalizes |
| `ApprovalScenarios.CorrectionRaceIsReached` | app/application/demand_service.py:1501-1533 | a new demand with one requirement is corrected after it was finalized |
| `ApprovalScenarios.OrderlyRunTakesBack` | app/infrastructure/sql/demand_repository.py:795-805 | and this in an orderly run that reads the row again; that run is not checked |
| `ApprovalScenarios.LateClosingIsReached` | app/application/approval_voting.py:319-346 | a new demand whose subject changes for a while reaches a completed, materialized cycle that is then invalidated |
| `ApprovalScenarios.TheRacesHappen` | app/infrastructure/sql/demand_repository.py:1789-1947 | for one directory and given subjects the races do happen |
| `ApprovalService.SoundnessPromises` | app/application/approval_voting.py:348-521 | what a sound, evolved store promises in plain terms: one open cycle on a submitted demand, decisions by frozen approvers, finalizations with complete quorum and once, nothing satisfied lost, closed cycles untouched |
| `ApprovalService.VoteIsSound` | app/application/approval_voting.py:348-521 | a vote keeps the store sound, and adds a finalization exactly when it reports one |
| `ApprovalService.CommandIsSound` | app/application/demand_service.py:761-1741 | so does a command, refused or not |
| `ApprovalService.EntitledIsNotRefused` | app/application/approval_voting.py:385-430 | a vote on known targets open to its actor is not refused for them |
| `ApprovalService.GuardIsUsed` | app/application/approval_voting.py:403-408 | a guard taken by a vote is used by its finalization, and without one the planning version stays |
| `ApprovalService.GuardIsNotMissing` | app/application/approval_voting.py:466-474 | in a vote that nothing interrupts the guard is never missing |
| `ApprovalService.EligibilityExactly` | app/application/approval_voting.py:523-551 | approving everything is refused for eligibility exactly when no requirement of the cycle is open to the actor |
| `ApprovalService.EditKeepsPromise` | app/application/demand_service.py:616-654 | an accepted business edit of a planned demand, by what the envelope says; a change of contact outside the planned status |
| `ApprovalService.DemandApprovals.constructor` | app/application/demand_service.py:735-759 | a draft without cycles, valid |
| `ApprovalService.DemandApprovals.Vote` | app/application/approval_voting.py:348-521 | keeps what the service promises, finalizes exactly when it says so, is never refused for a missing guard nor for known targets open to the actor; a refusal restores everything. In plain terms it ends as `VoteEnds` says: a planning conflict exactly if it would complete the quorum and expects another planning version, and a finalization under the version after the expected one |
| `ApprovalService.DemandApprovals.ApproveAllEligible` | app/application/approval_voting.py:523-551 | so does a vote on everything the actor may approve, refused for eligibility exactly when nothing in the named cycle is his; it ends as `AllEnds` says |
| `ApprovalService.DemandApprovals.Execute` | app/application/demand_service.py:761-1741 | each command keeps what the service promises and finalizes nothing; a refusal restores everything. In plain terms it ends as `CommandEnds` says: a business edit of a planned demand is refused exactly if the envelope refuses it, inside the envelope leaves it planned with the new subject and the same cycles, without a policy leaves it submitted and unapproved; a change of contact outside the planned status only moves the version |
| `RequestedHours.DearestInEverySlot` | app/application/medium_term_budget.py:236-250 | the largest option of every group makes a plan no other plan exceeds |
| `RequestedHours.OrderIsIrrelevant` | app/application/medium_term_budget.py:203-250 | plans, their hours and missing hours do not depend on the order of the periods |
| `RequestedHours.Combine` | app/application/medium_term_budget.py:215-250 | independent lines and groups can be evaluated apart and added |
| `RequestedHours.IgnoringBase` | app/application/medium_term_budget.py:216-221 | on a line with other periods the base ones change nothing |
| `RequestedHours.GroupByLine` | app/application/medium_term_budget.py:203-205 | the periods are grouped by line, none lost |
| `RequestedHours.RequestedHoursAreOrderFree` | app/application/medium_term_budget.py:190-254 | the result is one number, whatever the order of the periods |
| `RequestedHours.SameSlotExactly` | app/application/medium_term_budget.py:203-229 | two options are in one group exactly if they are on one line and have the same group, the identifier standing for a group that is missing or blank |
| `RequestedHours.CountsExactly` | app/application/medium_term_budget.py:215-238 | which periods may count: base ones on a line without others, detailed ones, and of a group the selected options or, without any, all |
| `RequestedHours.FlagsExactly` | app/application/medium_term_budget.py:230-244 | hours are missing exactly if a period that may count has none; a group is unresolved exactly if none of its options is selected |
| `RequestedHours.AsksExactly` | app/application/medium_term_budget.py:190-254 | the hours of a dearest plan are those of a choice of periods, one option of every group, that no choice exceeds |
| `RequestedHours.RequestedWorkforceHours` | app/application/medium_term_budget.py:190-254 | the hours of a dearest plan; in plain terms, of a choice of periods that no choice exceeds; unavailable exactly when a period that may count has no hours; each diagnostic exactly when it applies |
| `Percentile.Samples` | app/performance_baseline.py:61-61 | as many clamped samples as values |
| `Percentile.SamplesAreSorted` | app/performance_baseline.py:61-61 | in increasing order |
| `Percentile.SortedAsGiven` | app/performance_baseline.py:61-61 | and exactly the clamped values |
| `Percentile.SortingIsUnique` | app/performance_baseline.py:61-61 | there is one sorted arrangement |
| `Percentile.OrderIsIrrelevant` | app/performance_baseline.py:60-72 | permuting the samples changes no percentile |
| `Percentile.InterpolatedBetween` | app/performance_baseline.py:66-72 | an interpolated value lies between its neighbours |
| `Percentile.InterpolatedMonotone` | app/performance_baseline.py:66-72 | interpolation is monotone in the rank, across samples |
| `Percentile.MonotoneInQuantile` | app/performance_baseline.py:60-72 | a higher quantile never gives a lower percentile, for any monotone rounding |
| `Percentile.WithinSamples` | app/performance_baseline.py:60-72 | a percentile lies between the rounded smallest and largest samples |
| `Percentile.ExactAtSamples` | app/performance_baseline.py:66-70 | at an integer rank it is that sample, the extremes at quantiles 0 and 1 |
| `Percentile.RankExactly` | app/performance_baseline.py:66-66 | the rank is the bounded quantile of the way from the first sample to the last |
| `Percentile.InterpolatedAt` | app/performance_baseline.py:67-72 | between two samples the value is as far from the lower one as its rank |
| `Percentile.PercentileExactly` | app/performance_baseline.py:60-72 | over any sorted arrangement of the samples as they count: zero without one, the sample at an integer rank, else that part of the way from one sample to the next, rounded |
| `IdentityRecovery.DiagnosticsNameAccounts` | tools/diagnose_identity_recovery.py:79-150 | the inspection lists exactly the diagnosed accounts |
| `IdentityRecovery.EveryUnresolvedIsDiagnosed` | tools/diagnose_identity_recovery.py:83-148 | as many diagnostics as unresolved accounts, and being unresolved depends on the account alone |
| `IdentityRecovery.RecoverOneKeeps` | tools/diagnose_identity_recovery.py:163-191 | one recovery keeps ERP users unique and is an exact match |
| `IdentityRecovery.PassKeeps` | tools/diagnose_identity_recovery.py:162-194 | so does the pass, which leaves every candidate it looked at with an owner |
| `IdentityRecovery.PassCounts` | tools/diagnose_identity_recovery.py:162-194 | the unresolved accounts drop by the number recovered |
| `IdentityRecovery.RecoveryIsSound` | tools/diagnose_identity_recovery.py:153-194 | recovery keeps uniqueness, changes accounts by exact single-candidate matches only, and lowers the diagnostics by exactly the number recovered |
| `IdentityRecovery.NothingStaysPending` | tools/diagnose_identity_recovery.py:153-194 | no account is left pending |
| `IdentityRecovery.SecondRunRecoversNothing` | tools/diagnose_identity_recovery.py:153-194 | a second run changes nothing |
| `IdentityRecovery.DiagnosesExactly` | tools/diagnose_identity_recovery.py:79-148 | which accounts are diagnosed, with which reason and candidates: pending exactly if the only directory entry of the employee belongs to no account |
| `IdentityRecovery.InspectionIsExact` | tools/diagnose_identity_recovery.py:64-150 | the inspection lists every diagnosis once, in the order of the accounts |
| `IdentityRecovery.RecoversExactly` | tools/diagnose_identity_recovery.py:153-194 | every account whose employee has one directory entry, which no account has, gets it, unless an account before it gets the same one; nothing else changes, and the accounts changed are listed in order |
| `IdentityRecovery.IdentityStore.constructor` | tools/diagnose_identity_recovery.py:64-76 | the store holds the given accounts |
| `IdentityRecovery.IdentityStore.Inspect` | tools/diagnose_identity_recovery.py:64-150 | the loop lists every diagnosis, in order, and changes nothing |
| `IdentityRecovery.IdentityStore.ApplyDeterministic` | tools/diagnose_identity_recovery.py:153-194 | the accounts are updated in place: exactly those that may get their only candidate first have it afterwards, and are listed |
| `IdentityRecovery.IdentityStore.BuildReport` | tools/diagnose_identity_recovery.py:197-210 | the report counts the unresolved accounts and is ok exactly when there is none |
| `DeliveryBoard.BumpLogs` | app/application/delivery_service.py:290-299 | a mutation logs the next version of its plan |
| `DeliveryBoard.PlanMutationKeeps` | app/application/delivery_service.py:290-332 | a change of a plan row keeps the board valid |
| `DeliveryBoard.ItemMutationKeeps` | app/application/delivery_service.py:403-569 | so does a change of one item with its plan |
| `DeliveryBoard.ChangedKeeps` | app/domain/delivery.py:196-218 | an update keeps plan, kind and a captured reference, and its status is the requested one |
| `DeliveryBoard.ReferenceIsCapturedExactly` | app/domain/delivery.py:196-212 | an update leaves a story at work with an estimate and no reference exactly when the story is cancelled and unreferenced, and the update asks for a status at work and leaves or gives an estimate |
| `DeliveryBoard.RevivedStoryIsUncaptured` | app/domain/delivery.py:196-218 | a cancelled story of 8 hours that is put in progress has no reference |
| `DeliveryBoard.NextPositionIsPast` | app/application/delivery_service.py:372-377 | the default position is just past the items of the plan |
| `DeliveryBoard.NewItemIsFresh` | app/application/delivery_service.py:378-402 | a created item is valid, new, and has the requested status |
| `DeliveryBoard.CreatePlanKeeps` | app/application/delivery_service.py:226-265 | a created plan is the only current one of its work package and starts its history at 1 |
| `DeliveryBoard.SetStatusKeeps` | app/application/delivery_service.py:267-300 | a change of status keeps the board valid |
| `DeliveryBoard.SetLeadKeeps` | app/application/delivery_service.py:302-333 | so does a change of lead |
| `DeliveryBoard.CreateItemKeeps` | app/application/delivery_service.py:335-418 | the creation of an item |
| `DeliveryBoard.UpdateItemKeeps` | app/application/delivery_service.py:420-570 | its update |
| `DeliveryBoard.DocumentBlockageKeeps` | app/application/delivery_service.py:572-608 | and the documentation of a blockage |
| `DeliveryBoard.CallsKeep` | app/application/delivery_service.py:226-608 | every call keeps the board valid and undoes nothing |
| `DeliveryBoard.RunsKeep` | app/application/delivery_service.py:226-608 | after any calls each plan's history reads 1, 2, ..., its version; one current plan per work package; no story is closed; references and archived plans are frozen |
| `DeliveryBoard.EmptyBoardIsValid` | app/application/delivery_service.py:226-265 | the empty board is valid |
| `DeliveryBoard.EffectsAreVersioned` | app/application/delivery_service.py:151-183 | a call with an effect was made at the current version, moves it by one and adds one row; one without adds nothing |
| `DeliveryBoard.VersionsAreSpentOnce` | app/application/delivery_service.py:151-183 | of several calls expecting the same version at most one takes effect |
| `DeliveryBoard.TechniciansReportOwnWork` | app/application/delivery_service.py:455-495 | a technician who does not lead the plan changes only status and remaining hours, only of his own stories |
| `DeliveryOutcome.AllowedExactly` | app/application/delivery_security.py:23-42 | who may do what: managers of plans, the lead of the plan, the assignee of the story |
| `DeliveryOutcome.NewItemIsDrafted` | app/application/delivery_service.py:372-402 | every field of a new item is that of its draft; its estimate is the reference exactly if it starts at work |
| `DeliveryOutcome.PlacedExactly` | app/domain/delivery.py:161-180 | writing an item keeps the hierarchy exactly if it has nothing above it, or is a story under an epic of its plan |
| `DeliveryOutcome.FieldsAreUpdated` | app/application/delivery_service.py:496-547 | after an update every field asked for has its new value and every other one its old value; the reference is captured exactly by an estimate given at work or by leaving the backlog for work |
| `DeliveryOutcome.MayUpdateExactly` | app/application/delivery_service.py:455-495 | which fields an actor may change |
| `DeliveryOutcome.CreatePlanEndsSo` | app/application/delivery_service.py:226-265 | when the creation of a plan is refused and why, and what it stores otherwise |
| `DeliveryOutcome.SetStatusEndsSo` | app/application/delivery_service.py:267-300 | the same for its status |
| `DeliveryOutcome.SetLeadEndsSo` | app/application/delivery_service.py:302-333 | the same for its lead |
| `DeliveryOutcome.CreateItemEndsSo` | app/application/delivery_service.py:335-418 | the same for the creation of an item |
| `DeliveryOutcome.UpdateItemEndsSo` | app/application/delivery_service.py:420-570 | the same for its update |
| `DeliveryOutcome.DocumentBlockageEndsSo` | app/application/delivery_service.py:572-608 | the same for the documentation of a blockage |
| `DeliveryCalls.DeliveryService.constructor` | app/application/delivery_service.py:69-71 | an empty, valid board |
| `DeliveryCalls.DeliveryService.CreatePlan` | app/application/delivery_service.py:226-265 | keeps the board valid and undoes nothing; a draft plan and its first history row are stored, or the board is unchanged and the refusal is the first that applies |
| `DeliveryCalls.DeliveryService.SetPlanStatus` | app/application/delivery_service.py:267-300 | keeps the board valid and undoes nothing; the status moves forward one step with the version and a history row; the current status is a no-op; a refusal changes nothing |
| `DeliveryCalls.DeliveryService.SetLead` | app/application/delivery_service.py:302-333 | keeps the board valid and undoes nothing; the lead changes with the version and a history row; the same lead is a no-op; a refusal changes nothing |
| `DeliveryCalls.DeliveryService.CreateItem` | app/application/delivery_service.py:335-418 | keeps the board valid and undoes nothing; the item is stored with the next version of its plan and a history row; a refusal changes nothing |
| `DeliveryCalls.DeliveryService.UpdateItem` | app/application/delivery_service.py:420-570 | keeps the board valid and undoes nothing; the changed item is stored with the next version of its plan and a history row; without changes nothing is written; a refusal changes nothing |
| `DeliveryCalls.DeliveryService.DocumentBlockage` | app/application/delivery_service.py:572-608 | keeps the board valid and undoes nothing; the version moves and a history row is added, the item stays; a refusal changes nothing |

## Left out

- Floating point: weights, hours and samples are exact reals or integers in a common unit, so NaN, infinities and `round` are not modelled (percentiles hold for any monotone rounding).
- Hashing: the subject fingerprint is the canonical subject itself, that is, SHA-256 is taken as injective on it.
- Sessions, engines, reflection, files, subprocesses, argument parsing and JSON reports: transactions, compare-and-swap and the table order are kept as contracts, their answers are parameters.
- Cutover rows are one sequence of rows with their tables, and values are null, texts or numbers; the identity columns of a table are given with the schema, and the defaults of columns missing in old sources are part of the rows.
- The unique keys of the source (`_source_uniqueness_anomalies`), the schema comparisons, the backup verification and the revision checks are answers in `Surroundings`.
- CutoverTransfer.RunCutover: an exception raised by reading the target before the transaction, reported with code 3 too, is not modelled. The exact condition for code 0 is that of a target whose constraints are its foreign keys, checked at the end of each batch; unique keys and checks of the target, and a driver that checks row by row (batches of one), are answers of the target.
- CutoverPreparation.OrderIsIrrelevant: the order of the report lists (exclusions, missing parents, cleared keys) does depend on the visiting order and is not claimed to agree.
- CutoverOutcome.PreparationReports: whether a missing parent of a row that is excluded later is reported depends on the order of the visits and is not stated.
- The resolver of eligible approvers is modelled from what the scope service passes to it; administration of scopes, classes and asset types is not modelled.
- One demand per store: other demands only appear as planning changes made elsewhere.
- Identifiers of cycles, requirements, actions, plans and items are drawn from a counter instead of random ones.
- Comments, names, timestamps and audit rows of demands and cycles carry no decision and are not modelled.
- From the compare-and-swap, or from the flush of the row of the demand, to the commit a transaction is one step: the database holds the row locked, and what it isolates there is assumed. The readings of one phase before that are one step; a subject older than the stored one is covered by a change of the subject before the step and another after it.
- The stamps of an approval are written whenever they are withdrawn, even by a session whose row had none; they decide nothing but a label.
- Classes model transactions that nothing interrupts; the interleavings are those of `ApprovalRuns`.
- The vote that a reapproval makes on behalf of an editing approver is an ordinary vote step after the command, not part of its transaction.
- The creation of a demand that is submitted at once is a new demand followed by a submission.
- Demand commands that change the planning take no planning guard in the model; planning changes are separate steps that respect the guard.
- Permissions, the cancellation policy and field validation of demand commands are the parameter `permitted`; accepting or rejecting a cancellation, the extension of a candidate window, emergency planning and operational choices are not modelled.
- RequestedHours.RequestedWorkforceHours: lists each diagnostic at most once, by line; the order of the two diagnostics within one line is not modelled.
- Identity recovery: identifiers are compared trimmed on both sides, while the source trims only what it reads, not what its queries compare.
- Delivery calls run one after the other; a call whose item row was read before another transaction committed is not modelled.
- DeliveryCalls.DeliveryService.UpdateItem: the changes are a record, so unknown fields and unreadable values do not arise; timestamps of plans are not modelled.
- The demand read models, forecasts and progress ratios of Delivery, dashboards, importers, authentication and the planning engine would only add easy members or are not part of this model.
