# Paperclip: verified models of its data-moving core

This project models, in Dafny, the parts of the Paperclip repository where a mistake would lose, duplicate or misplace
somebody's data, and proves what those parts promise over all inputs and all runs.

- **History merge** (`MergeModel`, `IssueOrder`, `IssueCuts`, `RevisionNumbers`, `MergePlan`, `MergeApply`,
  `MergeIssues`, `MergeRows`, `MergeDocuments`, `MergeTheorems`, `MergeFinal`, `MergeAgain`, `MergeConservation`,
  `MergeContents`, `MergeCounts`, `MergeOrders`, `MergeIssueMeaning`, `MergeHistoryMeaning`, `MergeFilled`,
  `MergeIntegrity`, `MergeTallies`, `MergeRetry`). The planner that merges one instance's projects, issues, comments,
  documents, revisions and attachments into another, and the transaction that carries the plan out against a target
  whose inserts check foreign keys, primary keys and unique indexes. Proved: when a merge succeeds (an
  if-and-only-if), what every entry of a plan must say, told from the two instances and the request alone, what it
  leaves, column by column, that the previewed issue numbers and counts come true, that no plan entry or target row is
  lost, that references stay alive and unique columns unique whatever the plan, that applying a plan twice is applying
  it once, and that merging again plans nothing and changes nothing.
- **Migrations** (`Migrations`, `MigrationOrder`). Pending migrations by content hash, journal order, a transaction per migration on a
  connection that can die at any command, and the repair of a journal that lags behind the schema. Proved: any number
  of interrupted attempts followed by a finished one leave the statements and journal rows of one uninterrupted run,
  exactly when attempts that also reconcile do, and in which order and under which times files are recorded.
- **API-key responsibility report** (`Text`, `KeyReport`, `KeyReportOrder`, `KeyReportMeaning`, `KeyReceipts`,
  `KeyReceiptMeaning`). The fold over evidence rows, the validator of stored entries and the reader of stored receipts.
  Proved: what the report decides of each key, told from the rows alone; it is a function of the set of rows exactly
  when the rows of a key agree on its header; exactly which stored entries and receipts are accepted; reading back
  gives the report again.
- **Child-process output** (`ChildOutput`). The promise chain behind two pipes, as an object with one method per
  event; deliveries and drain calls run in the order they were registered.
- **Worktree ports and paths** (`WorktreePorts`). Repair of a fleet of configuration files in any order.
- **Backup text** (`BackupText`, `BackupFile`). Dollar-quoted values, and splitting a file back into statements.
- **Instruction loading** (`Instructions`, `InstructionWalk`): a bounded walk over a graph of files that may be cyclic,
  what the text it returns holds, and that it leaves nothing out without a reason. **Line buffering** (`LineBuffer`).

`Basics` holds shared vocabulary (options, results, sequence facts, sorting). Code that works step by step in the
source is a method or a class here, proved equal to a specification function or against a stated invariant; the main
results are lemmas about those specifications.

Where a promise does not hold of the code, the code is kept and the exact condition is proved:

- A merge of a mergeable pair fails exactly when the import order puts a missing parent after its child
  (`MergeFinal.SucceedsIffParentsReady`). It succeeds under every order the sort can produce exactly when parents are
  closed over the two instances and, on a parent cycle, every issue to import hangs from one the target has
  (`MergeOrders.EveryMergeSucceedsIff`).
- The planned revisions follow the source order for every source history, whatever the target already has of it,
  exactly when the target's numbers have no gap (`RevisionNumbers.OrderKeptIffNoGaps`).
- Attachments whose bodies could not be read are skipped by the merge and planned again by the next one; everything
  else is a fixed point (`MergeAgain.MergeReachesFixedPoint`).
- The tally of `clear_document_agent` also counts documents that are then found unchanged
  (`MergeConservation.TallyAccounts`).
- A dollar-quoted value reads back exactly when it does not end with its own tag short of the final dollar sign; the
  value `$paperclip` does not survive (`BackupText.LiteralReadsBack`, `BackupText.TagPrefixIsLost`).
- A backup file restores to what was emitted exactly when nothing but whole breakpoint lines contains the breakpoint
  text (`BackupFile.FileInvertsIff`, `BackupFile.StatementSurvivesIff`).
- A repair leaves a port shared with a visible sibling exactly when it was shared, is not a positive integer, and
  nothing else made the repair act (`WorktreePorts.SharedAfterIff`). A server port is moved onto a sibling's database
  port exactly when the least port free of server claims is one (`WorktreePorts.ServerTakesDatabasePortIff`), and a
  database port onto a sibling's server port under the mirrored condition
  (`WorktreePorts.DatabaseTakesServerPortIff`).
- The deferred instruction files are distinct exactly when no large file is referred to twice by the files followed
  (`Instructions.DeferredOnceIff`), for which `Instructions.DeferredOnce` gives a condition on the disk alone.
- Interrupted runs that reconcile before they migrate end where one uninterrupted run does exactly when no
  reconciliation on the way takes a pending migration for applied (`Migrations.EntryResumesIff`);
  `Migrations.CutLosesStatement` is an input where they do not.

To verify: `dafny verify dfyconfig.toml` (Dafny 4.11).

## Model

| member | source | states |
|---|---|---|
| `IssueOrder.DepthSorter.DepthFor` | cli/src/commands/worktree-merge-history-lib.ts:288-308 | the memoised depth recursion terminates on every parent relation, keeps earlier memo entries, touches only ancestors, leaves each settled depth right, and memoises what it newly settles at pairwise different depths, so that it cuts at most one cycle, once |
| `IssueOrder.DepthSorter.Compare` | cli/src/commands/worktree-merge-history-lib.ts:310-316 | the comparator's sign orders two issues by final depth, creation time and id, although it fills the memo while comparing |
| `IssueOrder.SortIssuesForImport` | cli/src/commands/worktree-merge-history-lib.ts:283-317 | the result is a permutation in (depth, createdAt, id) order under one final depth map |
| `IssueOrder.OffCycleAfterParent` | cli/src/commands/worktree-merge-history-lib.ts:283-317 | on any parent relation, an issue off every cycle is one deeper than its in-source parent and comes after it |
| `IssueOrder.ParentsFirstIffAcyclic` | cli/src/commands/worktree-merge-history-lib.ts:283-317 | every parent comes first exactly when no source issue is its own ancestor |
| `IssueOrder.CycleCutExactlyOnce` | cli/src/commands/worktree-merge-history-lib.ts:288-308 | every parent cycle is cut at exactly one issue, which is at depth 1; every other issue on it is one deeper than its parent |
| `IssueCuts.SomeDepthMapCutsAt` | cli/src/commands/worktree-merge-history-lib.ts:288-308 | whichever issue of a cycle is chosen, some admissible depth map cuts the cycle there |
| `IssueOrder.DepthCountsAncestors` | cli/src/commands/worktree-merge-history-lib.ts:288-308 | an issue's depth is the number of its ancestors among the source issues, where that number exists |
| `IssueOrder.CycleNeverEnds` | cli/src/commands/worktree-merge-history-lib.ts:293-296 | from a cycle the chain of parents never ends, so the cut in the recursion is the only way out |
| `RevisionNumbers.SkipUsed` | cli/src/commands/worktree-merge-history-lib.ts:615-621 | the inner loop ends at the least unused number at or above the cursor |
| `RevisionNumbers.PlanRevisions` | cli/src/commands/worktree-merge-history-lib.ts:598-639 | the revision loop plans the missing revisions in order under the assigned numbers and ends with the lookup of all numbers by id |
| `RevisionNumbers.AssignedFresh` | cli/src/commands/worktree-merge-history-lib.ts:604-639 | for any source numbers: assigned numbers are distinct, avoid the target's, and differ from the source's only on a clash |
| `RevisionNumbers.GaplessKeepsOrder` | cli/src/commands/worktree-merge-history-lib.ts:604-639 | over gapless target numbers, the revisions the planner imports of an increasing source get increasing numbers, whichever of them the target already has |
| `RevisionNumbers.GapBreaksOrder` | cli/src/commands/worktree-merge-history-lib.ts:604-639 | any gap in the target's numbers admits a source history of new revisions that the planner imports in reversed order |
| `RevisionNumbers.OrderKeptIffNoGaps` | cli/src/commands/worktree-merge-history-lib.ts:604-639 | the planner keeps the order of every increasing source exactly when every number from one of the target's up to its greatest (or 0) is in use |
| `MergePlanner.PlanProjectImports` | cli/src/commands/worktree-merge-history-lib.ts:390-416 | the import loop yields one import per requested source project that the target lacks, references filtered, workspaces sorted |
| `MergePlanner.PlanIssues` | cli/src/commands/worktree-merge-history-lib.ts:418-515 | the issue loop computes the plan of every issue with consecutive previews, and the tally of what the plans adjust |
| `MergePlanner.PlanComments` | cli/src/commands/worktree-merge-history-lib.ts:526-563 | the comment loop plans each comment from existing ids and available issues, with its tally |
| `MergePlanner.PlanDocument` | cli/src/commands/worktree-merge-history-lib.ts:572-690 | one turn of the document loop: orphan, conflicting slot, unchanged, insert or merge, and what it adds to the tally |
| `MergePlanner.PlanDocuments` | cli/src/commands/worktree-merge-history-lib.ts:565-690 | the document loop over all rows |
| `MergePlanner.PlanAttachments` | cli/src/commands/worktree-merge-history-lib.ts:692-725 | the attachment loop over all rows, with its tally |
| `MergePlanner.BuildWorktreeMergePlan` | cli/src/commands/worktree-merge-history-lib.ts:340-764 | the whole planner: the plan is the specified one for the order its sort produces, counts and tally included |
| `MergePlanner.DocumentTallySplit` | cli/src/commands/worktree-merge-history-lib.ts:586-597 | the document tally is the adjustments of written documents plus one for each unchanged document with a dropped agent |
| `MergeIssueMeaning.IssuesMean` | cli/src/commands/worktree-merge-history-lib.ts:390-515 | of every issue entry and project import of any plan, without the planner's functions: a project the target has is kept, else the operator's mapping onto a target project is taken under its name, else a requested source project is imported, and it is cleared exactly when none of these can be; the workspace stays exactly when the project does and the workspace will be there; goal, agents and status are the source's exactly when they can be kept, with `todo` only for abandoned work; each adjustment occurs once exactly when its reference was dropped; skipped issues list exactly the fields that differ; every import that can be made is made, with its references filtered and all its workspaces, the primary one first |
| `MergeIssueMeaning.DedupGrows` | cli/src/commands/worktree-merge-history-lib.ts:375-391 | requested projects are imported in the order they were first requested |
| `MergeHistoryMeaning.HistoryMeans` | cli/src/commands/worktree-merge-history-lib.ts:522-725 | of every comment, document, revision and attachment entry of any plan, revision ids being unique on each side, without the planner's functions: which are skipped, and why; authors and comments kept exactly when they can be; the latest revision is the one the source names, else the target's, under the number it has or gets; exactly the missing revisions are planned, in order; a document is skipped exactly when title, body, format, updater, dates, key and latest revision are the target's already and no revision is missing, and is merged otherwise |
| `MergeHistoryMeaning.HistoryInOrder` | cli/src/commands/worktree-merge-history-lib.ts:524-572 | comments, documents and attachments are planned by creation time and id, documents of one time by their links' creation |
| `MergeTallies.RowCountsMean` | cli/src/commands/worktree-merge-history-lib.ts:727-734 | each project, issue, comment and attachment count is the number of entries of its kind |
| `MergeTallies.DocumentCountsMean` | cli/src/commands/worktree-merge-history-lib.ts:735-744 | each document count is the number of entries of its own kind, and revisions are counted over the documents written |
| `MergeTallies.TallyMeans` | cli/src/commands/worktree-merge-history-lib.ts:378-388 | the tally holds each adjustment as often as there are entries that make it, told from what the entries dropped |
| `MergeApply.ImportProjects` | cli/src/commands/worktree.ts:1862-1909 | the project and workspace loop inserts exactly the listed rows or aborts at the first broken constraint |
| `MergeApply.ImportIssues` | cli/src/commands/worktree.ts:1911-1978 | the counter is raised once and issues are inserted in plan order under consecutive numbers, or the transaction aborts |
| `MergeApply.ImportComments` | cli/src/commands/worktree.ts:1980-2015 | the comment loop, skipping ids already in the target |
| `MergeApply.ImportDocuments` | cli/src/commands/worktree.ts:2017-2145 | the document loop: taken slots are skipped, documents and links inserted or updated, missing revisions appended |
| `MergeApply.ImportAttachments` | cli/src/commands/worktree.ts:2147-2206 | the attachment loop, skipping those whose body no source can serve |
| `MergeApply.ApplyMergePlan` | cli/src/commands/worktree.ts:1830-2221 | the whole transaction: all phases in order, or no result at all |
| `MergeIssues.NumbersAllocated` | cli/src/commands/worktree.ts:1911-1978 | for any plan and any target: inserted issues get exactly the next numbers in plan order, and numbers stay distinct and within the counter |
| `MergeIssues.PlannedRefsExist` | cli/src/commands/worktree-merge-history-lib.ts:429-513 | every project, workspace, goal and agent reference of a planned issue exists in the target once the project phase is through |
| `MergeIssues.IssuesGoIn` | cli/src/commands/worktree.ts:1938-1977 | with parents in order no issue insertion fails, so every reference exists at the moment it is written, and afterwards all source issues are in |
| `MergeIssues.OrderPutsParentsFirst` | cli/src/commands/worktree-merge-history-lib.ts:283-317 | the import order brings every missing parent in before its children when parents are closed and every missing issue on a cycle hangs from one the target has |
| `MergeIssues.PreviewsConsecutive` | cli/src/commands/worktree-merge-history-lib.ts:418-427 | the inserts of a fresh plan carry consecutive previews from the counter on |
| `MergeIssues.NoOrphanedProgress` | cli/src/commands/worktree-merge-history-lib.ts:489-498 | no planned issue is in progress with neither an agent of the target nor a nonblank user |
| `MergeRows.PlannedImportsReady` | cli/src/commands/worktree-merge-history-lib.ts:390-416 | planned imports are of distinct new projects with distinct new workspaces and live references |
| `MergeRows.ProjectsGoIn` | cli/src/commands/worktree.ts:1862-1909 | such imports all go in; the new project and workspace keys are those of the imports and no others |
| `MergeRows.ImportShape` | cli/src/commands/worktree-merge-history-lib.ts:390-416 | the imports are the requested source projects the target lacks, each once, and nothing else |
| `MergeRows.DedupDistinct` | cli/src/commands/worktree-merge-history-lib.ts:375-376 | requested project ids are taken once each |
| `MergeRows.CommentsGoIn` | cli/src/commands/worktree.ts:1980-2015 | planned comments all go in, each with its issue and author in place |
| `MergeRows.AttachmentsGoIn` | cli/src/commands/worktree.ts:2147-2206 | planned attachments all go in with their assets, short of those without a body |
| `MergeDocuments.PlannedRevisions` | cli/src/commands/worktree-merge-history-lib.ts:598-639 | the planned revisions of a document are exactly its source revisions the target lacks, each once, under numbers that collide with nothing |
| `MergeDocuments.StillReady` | cli/src/commands/worktree.ts:2023-2143 | writing one document leaves every other plan executable |
| `MergeDocuments.DocumentsGoIn` | cli/src/commands/worktree.ts:2017-2145 | a list of executable document plans is executed without a failing constraint |
| `MergeDocuments.DocumentsSettle` | cli/src/commands/worktree.ts:2017-2145 | afterwards each written document has the planned row, link and revisions, and every other document is untouched |
| `MergeDocuments.PlannedDocumentsReady` | cli/src/commands/worktree-merge-history-lib.ts:565-690 | the plans of a mergeable pair are executable together |
| `MergeTheorems.ProjectPhase` | cli/src/commands/worktree.ts:1862-1909 | the project phase of a fresh plan succeeds and puts every project and workspace the issues refer to in place |
| `MergeTheorems.IssuePhase` | cli/src/commands/worktree.ts:1911-1978 | a successful issue phase leaves the target's own issues and all of the source's |
| `MergeTheorems.AvailableIsMerged` | cli/src/commands/worktree-merge-history-lib.ts:517-520 | the planner's set of issues available after the import is what the issue phase leaves |
| `MergeTheorems.DocumentPhase` | cli/src/commands/worktree.ts:2017-2145 | the document phase of a fresh plan succeeds and settles every document |
| `MergeTheorems.HistoryPhase` | cli/src/commands/worktree.ts:1980-2206 | once the issues are in, comments, documents and attachments of a fresh plan all succeed |
| `MergeFinal.SucceedsIffParentsReady` | cli/src/commands/worktree.ts:1830-2221 | a fresh plan applies exactly when the order brings every missing parent in before its children |
| `MergeFinal.MergeSucceeds` | cli/src/commands/worktree.ts:1830-2221 | with parents closed, and a parent in the target for every missing issue on a cycle, the planner's own order makes the merge succeed |
| `MergeFinal.MissingCycleFails` | cli/src/commands/worktree.ts:1938-1977 | a parent cycle wholly absent from the target aborts every merge, whatever the order |
| `MergeOrders.EveryOrderReadyIff` | cli/src/commands/worktree-merge-history-lib.ts:283-317 | every order the sort can produce brings missing parents in first exactly on that condition |
| `MergeOrders.EveryMergeSucceedsIff` | cli/src/commands/worktree.ts:1830-2221 | a mergeable pair merges under every such order exactly on that condition |
| `MergeFinal.MergeOutcome` | cli/src/commands/worktree.ts:1830-2221 | after a successful merge: the keys of the project, workspace, issue, comment and attachment tables, the number of revisions, and each document's row, link and revisions |
| `MergeFinal.PreviewsComeTrue` | cli/src/commands/worktree.ts:1911-1978 | on an unchanged target each imported issue gets its previewed number and the row its plan describes, which `MergeFilled.IssueRowFills` gives column by column |
| `MergeFilled.IssueRowFills` | cli/src/commands/worktree.ts:1938-1977 | the inserted issue row column by column: id, parent, title, description, priority, user and creation time from the source, status, project, workspace, goal, assignee and creator from the plan, the number as given |
| `MergeFilled.MergeFills` | cli/src/commands/worktree.ts:1862-2206 | after a merge every entry that writes has left, column by column, the row its plan and its source describe: projects, workspaces, issues, comments, documents created or updated, links, revisions, assets and attachments; updated documents and links keep their creation columns |
| `MergeAgain.SameLatest` | cli/src/commands/worktree-merge-history-lib.ts:641-646 | recomputing the latest revision number after the merge gives what was written |
| `MergeAgain.DocumentAgain` | cli/src/commands/worktree-merge-history-lib.ts:572-690 | a document written or left by the merge is not written again |
| `MergeAgain.MergeReachesFixedPoint` | cli/src/commands/worktree-merge-history-lib.ts:340-764 | planning again from the same source finds nothing to do, except attachments whose bodies were missing |
| `MergeAgain.MergeIsIdempotent` | cli/src/commands/worktree.ts:1830-2221 | applying the second plan with the same bodies leaves the target exactly as it was |
| `MergeConservation.EveryRowPlannedOnce` | cli/src/commands/worktree-merge-history-lib.ts:418-725 | each source issue, in-scope comment, document and attachment is the source of exactly one plan entry |
| `MergeConservation.CountsPartition` | cli/src/commands/worktree-merge-history-lib.ts:727-748 | the action counts partition the plan entries of each kind |
| `MergeConservation.TallyAccounts` | cli/src/commands/worktree-merge-history-lib.ts:378-388 | the tally is what occurs in the entries, plus one dropped document agent per document then found unchanged |
| `MergeConservation.NothingLost` | cli/src/commands/worktree.ts:1830-2221 | no plan, however stale, makes the target lose a row; revisions are only appended |
| `MergeIntegrity.IntegrityKept` | cli/src/commands/worktree.ts:1830-2221 | whatever the plan, even one made for another target, a transaction that commits keeps every reference alive and every unique column unique |
| `MergeRetry.RetryChangesNothing` | cli/src/commands/worktree.ts:1830-2221 | applying the same plan again to the target it has already been applied to succeeds and changes nothing |
| `MergeRetry.StaleHistorySkipped` | cli/src/commands/worktree.ts:1980-2206 | entries whose row is there by now, whose issue is gone, whose slot is taken or whose body is not served are passed over and fail nothing |
| `MergeContents.RowsAsPlanned` | cli/src/commands/worktree.ts:1862-2206 | for any plan that commits: every project, workspace, comment, attachment and asset row that could go in is there exactly as planned |
| `MergeContents.DocumentsFrame` | cli/src/commands/worktree.ts:2017-2145 | the document phase touches documents, links and revisions only |
| `MergeCounts.CountsComeTrue` | cli/src/commands/worktree-merge-history-lib.ts:727-748 | when a fresh plan applies and every body can be served, each table grows by exactly the count shown beforehand |
| `MergeCounts.DocumentKeys` | cli/src/commands/worktree.ts:2017-2145 | the documents after the merge are the target's own and those planned for insertion, and these are new |
| `MergeDocuments.RevisionsAppended` | cli/src/commands/worktree-merge-history-lib.ts:739-743 | the document phase appends as many revisions as the plans list |
| `Migrations.Connection.RunMigration` | packages/db/src/client.ts:129-142 | one migration's transaction leaves either all of its statements and its journal row, or nothing |
| `Migrations.ApplyPendingManually` | packages/db/src/client.ts:233-280 | however the run is cut off, the database holds the first files of the journal order, whole |
| `Migrations.AppliedIffRecorded` | packages/db/src/client.ts:423-450 | for a journal that is empty or has a resolving hash, a listed file counts as applied exactly when its hash is in the journal |
| `Migrations.RunsResolve` | packages/db/src/client.ts:423-450 | running migrations keeps a journal of that kind |
| `Migrations.PendingMembers` | packages/db/src/client.ts:600-658 | the pending files are the listed ones without a journal row, each once |
| `Migrations.EachRunsOnce` | packages/db/src/client.ts:198-280 | unrecorded files run one after the other, each exactly once, and each gets its journal row |
| `Migrations.TodoAfterPrefix` | packages/db/src/client.ts:113-127 | after any prefix of the work, exactly the rest is ahead, in the same order |
| `Migrations.InterruptedIsPrefix` | packages/db/src/client.ts:233-280 | any series of interruptions leaves a whole-migration prefix of the uninterrupted run |
| `Migrations.CrashResume` | packages/db/src/client.ts:233-280 | finishing after any interruptions gives the log and journal of one uninterrupted run |
| `Migrations.CompletedHistory` | packages/db/src/client.ts:660-718 | a completed run has executed every pending migration once, in journal order, and none is left |
| `Migrations.TimesRise` | packages/db/src/client.ts:198-231 | each recorded time is later than every earlier row's |
| `MigrationOrder.TodoInJournalOrder` | packages/db/src/client.ts:113-125 | the work ahead is in the order of the journal file's entries, files of one order by name, the last entry naming a file counting |
| `MigrationOrder.CompletedTimes` | packages/db/src/client.ts:198-231 | a finished run records each file at its entry's time, or one past the latest recorded before it when that is later |
| `Migrations.MigrateThroughCrashes` | packages/db/src/client.ts:233-280 | attempts that die anywhere, then one that does not: the final state is that of one uninterrupted run |
| `Migrations.AlreadyApplied` | packages/db/src/client.ts:376-421 | a migration is in place exactly when it has statements and, kind by kind, every table, column of its table, index and constraint they create is there and no statement is of another kind |
| `Migrations.RepairFiles` | packages/db/src/client.ts:494-570 | the repair loop records exactly the longest prefix of its list that is in place in that sense |
| `Migrations.Reconcile` | packages/db/src/client.ts:486-579 | it runs no migration, records that prefix, and reports the rest of the pending list as remaining |
| `Migrations.PendingAfterReconcile` | packages/db/src/client.ts:486-579 | afterwards the pending list is the old one without the recorded prefix, in the same order |
| `MigrationOrder.PendingInListingOrder` | packages/db/src/client.ts:600-658 | the pending list follows the folder's listing |
| `MigrationOrder.RepairTimes` | packages/db/src/client.ts:497-567 | reconciliation records a file at its entry's time as it stands |
| `MigrationOrder.TouchedRaises` | packages/db/src/client.ts:525-544 | a file recorded already only has earlier times raised to its entry's |
| `Migrations.ApplyPendingMigrations` | packages/db/src/client.ts:660-718 | nothing stays pending; files found in place get their rows without running, the others run once in journal order, each with its row |
| `Migrations.RepairResumes` | packages/db/src/client.ts:486-579 | a reconciliation cut short is finished by the next one |
| `Migrations.CutAgreesIff` | packages/db/src/client.ts:660-718 | a reconcile-then-apply run cut off during its migrations agrees with an uninterrupted one exactly when the next reconciliation has nothing to record |
| `Migrations.EntryResumesIff` | packages/db/src/client.ts:660-718 | all interrupted reconcile-then-apply runs agree with an uninterrupted one exactly when no reconciliation on the way would record a pending migration |
| `Migrations.CutLosesStatement` | packages/db/src/client.ts:660-718 | an instance: of two files creating one table, cut off after the first, the second is recorded and never runs |
| `Text.Trichotomy` | packages/db/src/agent-api-key-responsibility-report.ts:142-146 | the lexical comparison orders any two different strings one way only |
| `Text.LessMeans` | packages/db/src/agent-api-key-responsibility-report.ts:55-56 | one string is less than another exactly when it is a proper prefix or has the smaller character where they first differ |
| `KeyReport.AddRow` | packages/db/src/agent-api-key-responsibility-report.ts:106-123 | one row keeps the fold's maps equal to what all rows so far say about each key and user |
| `KeyReport.BuildReport` | packages/db/src/agent-api-key-responsibility-report.ts:100-148 | the fold and the sorts yield the report defined from the rows as a whole |
| `KeyReport.GroupJoined` | packages/db/src/agent-api-key-responsibility-report.ts:113-122 | a backing row joins its user's tally and touches nobody else's |
| `KeyReportMeaning.ReportMeans` | packages/db/src/agent-api-key-responsibility-report.ts:85-148 | the report has one entry for each key of the evidence, in order, and each says what the rows do, without the builder's functions: a candidate for each user a row connects to the key, eligible exactly when some row says the user exists and some row says an active membership or an administrator; an unrevoked key is backfilled to the one such user if there is exactly one, and is revoked otherwise, each reason code under its own condition on the rows |
| `KeyReportMeaning.SummaryMeans` | packages/db/src/agent-api-key-responsibility-report.ts:75-83 | the summary counts keys of the evidence: all, those revoked already, those with exactly one user who may answer for them, and the others, who need an operator |
| `KeyReportOrder.OrderIndependent` | packages/db/src/agent-api-key-responsibility-report.ts:100-148 | reordering or repeating evidence changes nothing when rows of one key agree |
| `KeyReportOrder.OrderIndependentIffConsistent` | packages/db/src/agent-api-key-responsibility-report.ts:100-148 | the report depends on the set of rows alone exactly when rows of one key agree on its header |
| `KeyReportOrder.DisagreementShows` | packages/db/src/agent-api-key-responsibility-report.ts:105-112 | two disagreeing rows give different reports when either comes first |
| `KeyReceipts.BuiltKeyValid` | packages/db/src/agent-api-key-responsibility-report.ts:204-218 | every entry built from any evidence passes the validator and decodes to itself |
| `KeyReceipts.AcceptedIsStoredForm` | packages/db/src/agent-api-key-responsibility-report.ts:188-218 | the validator accepts nothing but the encoding of what it decodes to |
| `KeyReceiptMeaning.AcceptedIff` | packages/db/src/agent-api-key-responsibility-report.ts:188-218 | the validator accepts exactly the property-by-property stored forms of entries whose candidates rise and have fitting codes, and whose decision, reason, user and need for an operator go with the eligible candidates; they decode to those entries |
| `KeyReceipts.CheckAll` | packages/db/src/agent-api-key-responsibility-report.ts:230-234 | the loop accepts exactly receipts that match their rows and name distinct keys |
| `KeyReceipts.ReadStored` | packages/db/src/agent-api-key-responsibility-report.ts:224-257 | when the reader finds nothing, refuses, or reports, and what the report holds, its time being the latest |
| `KeyReceiptMeaning.StoredIff` | packages/db/src/agent-api-key-responsibility-report.ts:219-234 | a list of rows is read exactly when each row is the dated receipt of a fitting entry with matching columns and the keys are distinct |
| `KeyReceiptMeaning.ReceiptsRead` | packages/db/src/agent-api-key-responsibility-report.ts:224-257 | and then it reads as those entries and times |
| `KeyReceipts.NormalisedIsIdentity` | packages/db/src/agent-api-key-responsibility-report.ts:235-245 | re-sorting an entry the validator accepts changes nothing |
| `KeyReceipts.ReadBack` | packages/db/src/agent-api-key-responsibility-report.ts:224-257 | receipts stored one per key, in any order, read back as the built entries in their order |
| `ChildOutput.FirstErrorIsFirst` | packages/adapter-utils/src/child-process-output.ts:37-43 | the error kept is that of the first failed delivery, and there is none only when all succeeded |
| `ChildOutput.FirstErrorStays` | packages/adapter-utils/src/child-process-output.ts:39 | later deliveries cannot replace it |
| `ChildOutput.Output.Accept` | packages/adapter-utils/src/child-process-output.ts:27-51 | a chunk joins the end of the chain, its stream's tail grows, and both pipes are paused |
| `ChildOutput.TailGrows` | packages/adapter-utils/src/child-process-output.ts:27-30 | a chunk is appended to its own stream's text and leaves the other stream's alone |
| `ChildOutput.Output.Begin` | packages/adapter-utils/src/child-process-output.ts:35-36 | the next chunk delivered is the earliest accepted one not yet delivered, and only when no other is being delivered |
| `ChildOutput.Output.KeepError` | packages/adapter-utils/src/child-process-output.ts:37-43 | termination is asked for exactly on the first failure of a fatal sink |
| `ChildOutput.ComplaintSays` | packages/adapter-utils/src/child-process-output.ts:40-41 | a failure keeps its own message, and one without a message is named after its stream |
| `ChildOutput.Output.End` | packages/adapter-utils/src/child-process-output.ts:37-50 | a settled delivery, failed or not, leaves the chain; pipes resume exactly when nothing is pending |
| `ChildOutput.Output.Drain` | packages/adapter-utils/src/child-process-output.ts:55-56 | a drain call waits behind what the chain holds, whatever is pending |
| `ChildOutput.Output.Resume` | packages/adapter-utils/src/child-process-output.ts:55-58 | the answer is the first fatal error so far, given when exactly the deliveries accepted before the call are over |
| `ChildOutput.DrainDue` | packages/adapter-utils/src/child-process-output.ts:55-58 | when a drain's turn comes, all chunks accepted before the call and no others have been delivered or begun |
| `ChildOutput.NeverStalls` | packages/adapter-utils/src/child-process-output.ts:35-57 | while anything is in the chain it can take exactly one kind of step: begin the next delivery, settle the open one, or answer a drain |
| `ChildOutput.Step` | packages/adapter-utils/src/child-process-output.ts:27-57 | a step the chain can take begins, settles or answers exactly one; a step it cannot take changes none of these |
| `ChildOutput.Run` | packages/adapter-utils/src/child-process-output.ts:20-62 | over any interleaving: deliveries are a prefix of arrivals in order, one at a time, pipes paused while pending, at most one termination; a drain called after n arrivals is answered when exactly n deliveries are over, with the first fatal error among them, and until then no later one begins |
| `WorktreePorts.FindNextUnclaimedPort` | server/src/worktree-config.ts:214-220 | the search ends at the least unclaimed positive integer that is not a whole unit below the preference |
| `WorktreePorts.CollectSiblingPorts` | server/src/worktree-config.ts:165-212 | exactly the positive integer server ports and embedded database ports of readable siblings are claimed |
| `WorktreePorts.RepairKeeps` | server/src/worktree-config.ts:222-308 | after a repair paths are inside the root, no port collides, a moved server port and database port differ, an explicit loopback URL follows the server port, and external databases and other URLs are untouched |
| `WorktreePorts.RepairMoves` | server/src/worktree-config.ts:222-308 | a worktree with all paths inside its root and free ports is left alone; any other gets its logs, storage, key file, data and backups at their places under the root, and free ports |
| `WorktreePorts.RepairPicks` | server/src/worktree-config.ts:391-404 | a repair that acts picks the nearest free server port from the one in the file, or from 3101 for 3100, and likewise the database port, from 54330 for 54329, off the new server port too |
| `WorktreePorts.RepairSettles` | server/src/worktree-config.ts:381-418 | a repair changes one file only and leaves it settled among what it sees |
| `WorktreePorts.SettledIffUntouched` | server/src/worktree-config.ts:381-418 | a repair writes nothing exactly when the worktree is settled |
| `WorktreePorts.StaySettled` | server/src/worktree-config.ts:381-418 | repairing one worktree unsettles nobody |
| `WorktreePorts.Disk.Repair` | server/src/worktree-config.ts:381-418 | the routine's effect on the config files |
| `WorktreePorts.Disk.RepairAll` | server/src/worktree-config.ts:366-418 | in any order, repaired worktrees end up settled; a whole fleet with embedded databases and positive integer ports ends up with pairwise different server ports, pairwise different database ports and paths inside the roots; then no repair changes anything |
| `WorktreePorts.FleetSeparated` | server/src/worktree-config.ts:366-418 | that fleet property, of the repairs as a function of the files and the order |
| `WorktreePorts.SettledPortsDiffer` | server/src/worktree-config.ts:193-204 | two settled worktrees that see each other share no positive integer port |
| `WorktreePorts.SharedAfterIff` | server/src/worktree-config.ts:381-418 | after a repair a server or database port is shared with a visible sibling exactly when it was shared, is not a positive integer, and the worktree was settled |
| `WorktreePorts.ServerTakesDatabasePortIff` | server/src/worktree-config.ts:388-402 | a repair that acts puts the server on a sibling's database port exactly when the least port free of server claims is one |
| `WorktreePorts.ServerMayTakeDatabasePort` | server/src/worktree-config.ts:388-402 | an instance: 3101 |
| `WorktreePorts.DatabaseTakesServerPortIff` | server/src/worktree-config.ts:388-402 | a repair that acts puts an embedded database on a sibling's server port exactly when the least port free of database claims and of its own new server port is one |
| `WorktreePorts.DatabaseMayTakeServerPort` | server/src/worktree-config.ts:388-402 | an instance: 54330 |
| `BackupText.FormatSqlLiteral` | packages/db/src/backup-lib.ts:108-115 | the literal is the NUL-free value between two copies of the first tag it does not contain |
| `BackupText.SanitizedConcat` | packages/db/src/backup-lib.ts:108-109 | sanitizing takes out the NULs and nothing else, wherever they stand |
| `BackupText.FirstTagChosen` | packages/db/src/backup-lib.ts:110-114 | the tag is the first of the fixed one and the drawn ones that the text does not contain, and there is none exactly when it contains them all |
| `BackupText.EarlyCloseAt` | packages/db/src/backup-lib.ts:108-115 | text free of the tag can complete it early in one place only, by ending in the tag short of its last dollar sign |
| `BackupText.QuotedReads` | packages/db/src/backup-lib.ts:108-115 | exactly what a scanner reads from a quoted body, whatever follows |
| `BackupText.LiteralReadsBack` | packages/db/src/backup-lib.ts:108-115 | the literal reads back as the value, to its very end, exactly when the value does not end in the open tag |
| `BackupText.TagPrefixIsLost` | packages/db/src/backup-lib.ts:108-115 | the value `$paperclip` reads back empty |
| `BackupFile.Writer.Emit` | packages/db/src/backup-lib.ts:169 | a bare line is appended |
| `BackupFile.Writer.EmitStatement` | packages/db/src/backup-lib.ts:170-173 | a statement is appended with its breakpoint line |
| `BackupFile.Writer.Contents` | packages/db/src/backup-lib.ts:57-62 | the file is every line followed by a newline |
| `BackupFile.StatementsOf` | packages/db/src/backup-lib.ts:555-562 | the restored statements are the trimmed nonempty pieces between breakpoints, in order |
| `BackupFile.SplitAfterLine` | packages/db/src/backup-lib.ts:555-556 | a line free of the separator can neither hold nor straddle a cut |
| `BackupFile.FileInvertsIff` | packages/db/src/backup-lib.ts:168-180 | restoring what was written, bare breakpoint lines included, gives each statement after the lines emitted since the breakpoint before, with nothing lost or added, exactly when nothing but whole breakpoint lines contains the separator |
| `BackupFile.PiecesAreFree` | packages/db/src/backup-lib.ts:555-556 | no piece of a split file contains the separator |
| `BackupFile.TableSurvives` | packages/db/src/backup-lib.ts:329-332 | a table's definition, emitted in lines and ended by a bare breakpoint, is restored as one statement |
| `BackupFile.StatementSurvivesIff` | packages/db/src/backup-lib.ts:170-173 | a nonblank, trimmed statement is restored as itself exactly when it does not contain the breakpoint text |
| `BackupFile.StatementsInOrder` | packages/db/src/backup-lib.ts:555-562 | in the restored file no statement, a table's definition included, is lost, split or reordered, and at most one trailing text follows |
| `BackupFile.BlankLinesVanish` | packages/db/src/backup-lib.ts:555-558 | between blank lines only, the restored file is exactly the emitted statements |
| `BackupFile.SeparatorIsLost` | packages/db/src/backup-lib.ts:555-556 | an instance: a statement beginning with the breakpoint text loses it |
| `BackupFile.RoundTrip` | packages/db/src/backup-lib.ts:511-562 | writing and restoring composed, with the exact condition |
| `Instructions.Loader.LoadFile` | packages/adapter-utils/src/instructions.ts:208-263 | the recursion over shared sets and lists computes the specified walk and text, and terminates on any graph |
| `Instructions.WalkSound` | packages/adapter-utils/src/instructions.ts:193-273 | on any graph: each path read at most once; included files are distinct, not the entry, at most `maxFiles`, small, and within `maxDepth` links of the entry |
| `Instructions.IncludedNotDeferred` | packages/adapter-utils/src/instructions.ts:235-242 | no path is both included and deferred |
| `Instructions.DocumentHoldsIncluded` | packages/adapter-utils/src/instructions.ts:224-263 | the text nests exactly the included files' contents in reading order, short of blank files |
| `Instructions.TextSays` | packages/adapter-utils/src/instructions.ts:215-263 | the returned text is the entry's own content followed, for the included files in reading order short of blank ones, by a heading with the path and that file's content |
| `Instructions.IncludedStandsInText` | packages/adapter-utils/src/instructions.ts:243-262 | so every included nonblank file stands in the text under its own heading, after those read before it and before those read after it |
| `InstructionWalk.WalkCompletes` | packages/adapter-utils/src/instructions.ts:207-257 | on any graph nothing is left out without a reason: every reference of a followed file is tried, unless its file is large and is left as a path or the file limit is reached, with the warning; every file tried is inlined, unless it cannot be read, with the warning; every inlined file is followed, unless it is at the depth limit |
| `InstructionWalk.LimitsHold` | packages/adapter-utils/src/instructions.ts:215-241 | what is inlined is a regular file within both size limits, what is left as a path is one beyond the second, and the call fails exactly when the entry is not a regular file within the first |
| `Instructions.JoinedRenders` | packages/adapter-utils/src/instructions.ts:243-262 | joining the sections gives the nested document's text |
| `Instructions.DeferredCount` | packages/adapter-utils/src/instructions.ts:228-242 | a path is deferred once for every reference to it in the files followed, if it is too big and not the entry, and never otherwise |
| `Instructions.DeferredOnceIff` | packages/adapter-utils/src/instructions.ts:228-242 | the deferred paths are distinct exactly when no such path is referred to twice, by one followed file or by two |
| `Instructions.DeferredOnce` | packages/adapter-utils/src/instructions.ts:228-242 | judged by the disk alone: the deferred paths are distinct when no large file other than the entry is referred to twice by readable files within reach |
| `Instructions.DeferredMayRepeat` | packages/adapter-utils/src/instructions.ts:235-242 | an instance: two spellings in the entry |
| `Instructions.LoadInstructions` | packages/adapter-utils/src/instructions.ts:193-273 | the call as a whole: it rejects exactly when the entry cannot be read, its result is sound, and the text it returns holds the entry's content and each included nonblank file's under its heading, in reading order |
| `LineBuffer.PiecesAppend` | cli/src/commands/heartbeat-run.ts:169-171 | splitting resumes from the held-back text, also between `\r` and `\n` |
| `LineBuffer.PiecesAreLines` | cli/src/commands/heartbeat-run.ts:170 | no piece holds a newline |
| `LineBuffer.JoinedPieces` | cli/src/commands/heartbeat-run.ts:170 | joining the split lines gives the text back with its line ends unified |
| `LineBuffer.FedIsSplit` | cli/src/commands/heartbeat-run.ts:158-175 | for every cutting, lines emitted plus held-back text are the split of the whole |
| `LineBuffer.CutsAgree` | cli/src/commands/heartbeat-run.ts:158-175 | two cuttings of the same stream emit the same lines |
| `LineBuffer.StreamPrinter.HandleStreamChunk` | cli/src/commands/heartbeat-run.ts:158-175 | the handler keeps that invariant for standard output and passes other chunks through untouched |
| `LineBuffer.StreamPrinter.Finish` | cli/src/commands/heartbeat-run.ts:277-281 | at the end every line has been formatted, the last one unless it is blank |

## Left out

- Several companies in one database: the merge is modelled for one company's rows, without `companyId` columns.
- Columns copied verbatim that no decision reads and no constraint mentions, and the identifiers derived from issue
  numbers beyond the number itself.
- The unique index on project workspaces' remote references; imported workspaces are assumed not to break it.
- Progress totals that `applyMergePlan` returns, and storage writes of attachment bodies; which bodies can be served
  is a parameter.
- Documents of the target that compete for a source document's (issue, key) slot: `Mergeable` excludes them, because a
  later run may then do what an earlier one skipped.
- Writers other than the merge between planning and applying, except where a lemma takes any plan and any target.
- Ids are their ranks under `localeCompare`; two ids that compare equal are taken to be the same id.
- Dates are integers or text, hashes are compared for equality only, and JSON numbers have no NaN or infinity.
- Journals none of whose hashes resolve although they have rows (the fallbacks by `created_at` and by row id),
  journals without hashes, and a journal table that is missing; rows with an unknown hash beside known ones are
  covered.
- What a migration statement does to the schema: which schema objects exist is an arbitrary function of the statements
  run, and how a statement's kind is recognised from its text is not modelled.
- Splitting a migration file into statements at its breakpoints.
- `exactKeys` and `stringArray` compare joined strings; they are modelled as equality of key sets and of lists, which
  differ only for texts holding NUL characters.
- Database queries, transactions and locks around the API-key report; its evidence rows and receipts are parameters.
- Callbacks of the output object that throw synchronously, and how a chunk is converted to text.
- Configuration files that are partly malformed: a sibling is readable as a whole or not at all.
- Environment files of worktrees and the persistence of run-time port choices.
- `URL` parsing: a public base URL is either a loopback URL with a port or something else.
- The queries that produce a backup's lines, compression, renaming of the finished file, and pruning.
- `Math.random`: the tags drawn are a parameter, and running out of draws stands for a loop that has not ended yet.
- Extraction of references from Markdown, resolution of paths and removal of front matter: a file comes with its
  resolved references.
- Files that change while instructions are being loaded.
- The adapter's formatting of a line and the polling loop around the stream handler.
- Strings are sequences of Dafny characters standing for UTF-16 code units.
