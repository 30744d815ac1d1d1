# Benchhand: the durable core, modelled and verified

This project models the parts of Benchhand that have to stay right under crashes, retries and
concurrent callers, and proves what they promise. It is checked with

    dafny verify dfyconfig.toml

## What is modelled

- **The managed-worktree protocol** (`WorkspaceDatabase.dfy`, `WorktreeProtocol.dfy`,
  `WorktreeSafety.dfy`, `WorktreeRecovery.dfy`, `WorktreeClosure.dfy`, `OpenCases.dfy`,
  `OpenCauses.dfy`, `WorkspaceRegistry.dfy`). Any number of openers in any number of processes share
  one database, one Git repository and one file system. Every SQL statement or transaction, every
  probe and every part of a `git worktree add` is one step, steps of different openers interleave
  freely, an opener may crash between any two of its steps, its Git child may go on without it, and
  the surroundings may change files, worktree records and branch tips. `WorktreeSafety` proves what
  every run keeps, `WorktreeRecovery` what an undisturbed open makes of whatever a crash has left,
  `WorktreeClosure` exactly when later opens of a key can change nothing, `OpenCases` what an
  undisturbed open does case by case, in terms of rows, journal entries and files alone,
  `OpenCauses` why an open that anybody disturbs returns or fails, and `WorkspaceRegistryCode` is
  the registry in the source's own imperative form, proved to make only runs of that protocol.
- **Conditional writes and exact patches** (`ConditionalWrite.dfy`, `WriteRaces.dfy`,
  `ExactPatch.dfy`, `PatchCases.dfy`, `WriteCases.dfy`, `WriteService.dfy`). The promise queue of a
  target, stage, recheck and commit by `rename` or `link`, compare-and-patch on top, crashes and
  outside writers at any step; the planner and the applier of exact patches; what a text can be
  patched to and why not (`PatchCases`), what becomes of an undisturbed write or patch by the file
  at its target alone (`WriteCases`); and the service statement by statement.
- **Listing and search** (`CodePoints.dfy`, `Listing.dfy`, `Search.dfy`, `SearchResults.dfy`,
  `SearchCounts.dfy`). The code-point order, cursor pagination of a directory that changes between
  pages, and the bounded recursive search against an independent reading of what it should find.
- **The operation journal** (`OperationJournal.dfy`): at-most-once execution with replay, conflict
  detection and reconciliation, over any number of executors and connections.
- **The migration runner** (`Migrations.dfy`): the check outside the transaction, the effect and its
  record inside it, any number of processes.
- **The stable instruction read** (`Instructions.dfy`): the retry loop and its cache against a
  reader that has no cache.
- **Two algorithms**: the cycle-detecting JSON check over heap graphs (`JsonValue.dfy`) and the
  parser of `git worktree list --porcelain -z` (`Porcelain.dfy`).

A protocol is a function `Apply` from a world and a step to the next world, and `Run` over a
sequence of steps; its theorems hold of every run. The classes hold the same state in real fields.
Their `Others` methods stand for everybody else: a caller learns only that some further run of the
protocol happened. What the surroundings decide for the program (which system calls or statements
fail, what an effect returns, which id is drawn) is a constant of the class or a parameter, and what
a call sees of a disk is in its log; the contracts say of an error which of it, or which state that
was met, explains it. Ghost fields record the run that the program itself makes, so `Valid()` says
that the program is at a state that this run reaches. All inductions are written out (`{:induction
false}`).

## Assumptions

- SHA-256 is injective, including the 20 hexadecimal digits of the ownership key; a digest is
  modelled by the bytes it was made of, the key by the pair it is made of.
- Immediate SQLite transactions, `rename` and `link` are atomic, and one probe of a file or of the
  database is one step (so the `lstat` and the hash of `inspectWriteTarget` are taken together).
- `git worktree add` creates the branch, then the directory with its locked record, then the head.
  Nothing outside deletes branches.
- Temporary names are fresh, and names within one directory are distinct and not empty.
- Glob matching, UTF-8 decoding and encoding, byte lengths and `realpath` are uninterpreted. Text is
  a sequence of UTF-16 code units.

## Model

| member | source | states |
|---|---|---|
| WorktreeSafety.StepKeeps | packages/workspace/src/index.ts:317-678 | every step of any opener, Git child, crash or outside change keeps the invariant of tables, openers and branches, and deletes or rebinds nothing durable |
| WorktreeSafety.SameWorkspace | packages/workspace/src/index.ts:357-391 | over every run from an empty database, any two successful opens of one key return the same workspace id, the one of the key's only row |
| WorktreeSafety.OneWorktreeAdd | packages/workspace/src/index.ts:489-518 | over every run, at most one `git worktree add` of a key ever gets past creating its branch, so at most one succeeds |
| WorktreeSafety.JournalAgrees | packages/workspace/src/index.ts:394-418 | in every reachable state a row exists iff the journal holds exactly one registration entry of its key, with the row's workspace id and after a create-intent; it is retired iff exactly one path-unavailable entry exists |
| WorktreeSafety.OnlyForward | packages/workspace/src/index.ts:600-675 | along every run rows keep workspace and path, a retired row stays retired, and the journal only grows |
| WorktreeSafety.RetiredStaysClosed | packages/workspace/src/index.ts:361-368 | every open that starts after a row was retired is refused before it writes anything or runs Git |
| WorktreeSafety.TablesKept | packages/workspace/src/index.ts:357-678 | the statement at each program point keeps the constraints and the agreement of journal and rows |
| WorktreeSafety.PointKept | packages/workspace/src/index.ts:357-678 | each statement leaves its opener with what its next statement relies on, whatever others did |
| WorkspaceTables.RegisterKeeps | packages/workspace/src/index.ts:600-675 | the registration transaction keeps uniqueness, rows and journal in agreement, whatever raced with it |
| WorkspaceTables.RegisterResult | packages/workspace/src/index.ts:600-610 | a registration returns the workspace of the key's active row or changes nothing |
| WorkspaceTables.MarkCleanupKeeps | packages/workspace/src/index.ts:394-413 | the retiring transaction keeps the agreement, adds its journal entry at most once and leaves the row retired |
| WorkspaceTables.CheckoutKeeps | packages/workspace/src/index.ts:269-308 | the checkout upsert returns the one row of that directory and touches neither managed rows nor journal |
| WorkspaceTables.IntentBefore | packages/workspace/src/index.ts:544-554 | every registration entry comes after a create-intent of the same key |
| WorktreeRecovery.SoloOpen | packages/workspace/src/index.ts:317-518 | an undisturbed open always ends, from any sound tables, files and branches, in the outcome that these determine |
| WorktreeRecovery.CrashLeaves | packages/workspace/src/index.ts:487-518 | a first opener that breaks off anywhere leaves nothing, a branch only, a half-built worktree, a complete unregistered one, or a registered one |
| WorktreeRecovery.CrashRecovery | packages/workspace/src/index.ts:434-518 | after such a crash the next undisturbed open ends, and creates, fails closed, fails closed, adopts as `reconciled`, or reuses, with exactly the stated tables and journal |
| WorktreeClosure.FailClosedIsFixed | packages/workspace/src/index.ts:434-487 | any number of later opens of a key, with any managed roots for each of which it is fail-closed, in any interleaving and with nobody else acting, leave tables, journal, branches, worktrees and files as they were, and none succeeds |
| WorktreeClosure.FixedIffClosed | packages/workspace/src/index.ts:434-518 | the condition is exact: later opens with a set of roots can change nothing, in any number and interleaving, iff the key is fail-closed for every root of the set |
| WorktreeClosure.OpenChanges | packages/workspace/src/index.ts:434-518 | for a root for which the key is not fail-closed, one undisturbed open changes something |
| WorktreeClosure.OtherRootJournals | packages/workspace/src/index.ts:421-487 | one root is not enough: a half-built worktree is fail-closed for its own root, while an open with another root journals its branch as orphaned |
| WorktreeClosure.ClosedAmongOthers | packages/workspace/src/index.ts:317-518 | with opens of other keys and their Git children, checkouts, revalidations and other branches' changes interleaved, no later open of a fail-closed key succeeds, and its row, journal entries, branch, targets and worktree records stay as they were; it stays fail-closed |
| WorktreeClosure.StillClosed | packages/workspace/src/index.ts:434-487 | a fail-closed key stays so while nothing of its own changes, whatever rows and files of other keys are added |
| WorktreeClosure.LeftoversClose | packages/workspace/src/index.ts:450-487 | after one open, the branch-only and half-built leftovers are fail-closed for the root of that open |
| WorktreeRecovery.SoloWaits | packages/workspace/src/index.ts:520-539 | a wait for a creator that never finishes uses up its attempts and fails closed |
| WorktreeRecovery.AloneIsRun | packages/workspace/src/index.ts:317-518 | the undisturbed open is a run of the protocol that takes only that opener's own steps |
| OpenCases.RetiredRow | packages/workspace/src/index.ts:362-369 | an undisturbed open of a key whose row is cleanup-required is refused and changes nothing |
| OpenCases.ActiveRowReused | packages/workspace/src/index.ts:370-391 | an undisturbed open of an active row returns its workspace, touched, with the row still active, if the registered path is a directory with the registered identity |
| OpenCases.ActiveRowRetired | packages/workspace/src/index.ts:394-418 | and only then: otherwise it is refused, with the row cleanup-required and exactly one path-unavailable entry appended |
| OpenCases.DeniedTarget | packages/workspace/src/index.ts:443-448 | without a row, a target that cannot be looked at is reported as inaccessible, and nothing changes |
| OpenCases.OccupiedTarget | packages/workspace/src/index.ts:434-442 | a target that exists is occupied unless it resolves, an intent of the key was journalled and a listed record with the key's commit, branch and lock resolves to the same path |
| OpenCases.OwnedTarget | packages/workspace/src/index.ts:541-589 | otherwise its directory is registered as `reconciled` with exactly these rows and this entry, unless the id, the directory or the path is already taken |
| OpenCases.ForeignBranch | packages/workspace/src/index.ts:482-487 | a free target with a branch that no intent explains is refused as occupied |
| OpenCases.OrphanedBranchOpen | packages/workspace/src/index.ts:459-481 | a branch that an intent explains is refused, and journalled as orphaned exactly when no cleanup entry is there |
| OpenCases.FreeTarget | packages/workspace/src/index.ts:489-518 | free names: intent, branch at the base commit, directory, locked record, rows and `created` entry, exactly these; a taken id, directory or path leaves the worktree unregistered |
| OpenCases.BrokenChildFails | packages/workspace/src/index.ts:505-515 | a creation that broke off and left nothing of the key's own is journalled as failed and thrown |
| OpenCases.WaitsForty | packages/workspace/src/index.ts:520-539 | a wait in which nothing comes takes forty rounds and one last look, and then demands cleanup |
| OpenCases.NoWaitAfterFailure | packages/workspace/src/index.ts:461-464 | whether to wait, and to go on waiting, is decided by failure and cleanup entries alone |
| OpenCases.InspectIs | packages/workspace/src/index.ts:861-876 | the status of a registered directory, by the kind of thing at its path |
| OpenCauses.FailsForCause | packages/workspace/src/index.ts:317-518 | in every run, whatever all the others do, each error of an open is explained by states it has met: a retired row, a lost directory, an orphaned or foreign branch, an occupied, denied or unresolved target, a clash of its registration; or a call of its own or of its Git child failed |
| OpenCauses.ReturnsForCause | packages/workspace/src/index.ts:317-518 | in every run, an open that returned has met the directory of its row, or one at its target |
| OpenCauses.NextKnows | packages/workspace/src/index.ts:357-678 | each statement leaves its opener with what explains its next point |
| WorkspaceRegistryCode.WorkspaceRegistry.OpenWorktree | packages/workspace/src/index.ts:317-518 | with anybody acting between any two statements, the call makes a run of the protocol that ends at the result it returns or the error it throws; a returned workspace is registered, is the one of its key's row and had its directory at some time of the call; and every error is explained by states met during the call or, for an open that the surroundings make faulty, by a failed call |
| WorkspaceRegistryCode.WorkspaceRegistry.ReuseRow | packages/workspace/src/index.ts:369-418 | every statement on an active row is the protocol's next one, up to the reuse that is returned or the refusal that is thrown |
| WorkspaceRegistryCode.WorkspaceRegistry.RetireRow | packages/workspace/src/index.ts:394-413 | the retiring transaction is the protocol's, whatever has happened to the row since it was read |
| WorkspaceRegistryCode.WorkspaceRegistry.Register | packages/workspace/src/index.ts:600-675 | both inserts and the journal entry, or a rollback to exactly the old tables on any violated constraint |
| WorkspaceRegistryCode.WorkspaceRegistry.RegisterManagedWorktree | packages/workspace/src/index.ts:591-678 | every statement of a registration is the protocol's next one, up to the workspace read back or the error |
| WorkspaceRegistryCode.WorkspaceRegistry.FindOwned | packages/workspace/src/index.ts:571-586 | the loop over listed worktrees succeeds iff some record proves the key's ownership of the expected path |
| WorkspaceRegistryCode.WorkspaceRegistry.TryReconcilePartialWorktree | packages/workspace/src/index.ts:541-589 | a run of the protocol that ends in an adoption, in an error, or at exactly the point where the protocol lets this caller go on |
| WorkspaceRegistryCode.WorkspaceRegistry.WaitForInflightWorktree | packages/workspace/src/index.ts:520-539 | a run of the protocol, with its bounded number of attempts, that ends in an adoption, in an error, or at the orphan check |
| WorkspaceRegistryCode.WorkspaceRegistry.CreateLockedWorktree | packages/workspace/src/git-worktree.ts:47-69 | the child succeeds iff all of its steps do, and a broken child tells whether it had made the branch |
| WorkspaceRegistryCode.WorkspaceRegistry.FindBranch | packages/workspace/src/index.ts:450-487 | every statement after an existing branch was found is the protocol's next one, up to the result it returns or throws |
| WorkspaceRegistryCode.WorkspaceRegistry.OpenWithoutRow | packages/workspace/src/index.ts:434-518 | every statement of an open without a row is the protocol's next one, in the order path, branch, intent, creation, up to the result |
| WorkspaceRegistryCode.WorkspaceRegistry.OpenCheckout | packages/workspace/src/index.ts:247-315 | returns the row of the directory, made available and one version on, or when there is none a new one with the drawn id unless that is taken; changes no other row, managed row or journal entry |
| WorkspaceRegistryCode.WorkspaceRegistry.Get | packages/workspace/src/index.ts:680-711 | answers for exactly the workspaces that were registered when it began, with their directory, and with the status that the files gave that directory in some state of the call, spelled out: missing, inaccessible, no directory or another one, or the registered one; a status that differs from the one read is stored |
| ConditionalWrite.Serializable | packages/filesystem/src/index.ts:653-746 | when files change only through the service, calls on a target take effect one at a time in queue order, each over what the one before left, each with its precondition holding of what it replaced, and the file is what the last success wrote |
| ConditionalWrite.StepKeeps | packages/filesystem/src/index.ts:653-746 | every step, also of outside writers and crashes, keeps queue, staged content and commit log in agreement |
| ConditionalWrite.CommitAtomic | packages/filesystem/src/index.ts:660-709 | at every step a target keeps its content, is changed from outside, or takes the complete content of one committing call |
| ConditionalWrite.ReturnsIffCommitted | packages/filesystem/src/index.ts:653-731 | over every run a call is done iff the log has an entry of it; then exactly one, on its target, with its content, over nothing when it was to create |
| ConditionalWrite.CreateOnlyNeverOverwrites | packages/filesystem/src/index.ts:690-702 | a create-only call replaces nothing, in no interleaving with any outside writers |
| ConditionalWrite.PatchedFromBase | packages/filesystem/src/index.ts:430-497 | over every run, with any outside writers, the content that a patch commits is the encoding of its plan applied to the decoding of exactly the content with its expected hash |
| ConditionalWrite.PatchReplacesBase | packages/filesystem/src/index.ts:430-497 | when files change only through the service, a committed patch replaced exactly that content |
| WriteRaces.BaseComesBack | packages/filesystem/src/index.ts:660-709 | when files change only through the service: of two commits on one target the later one replaced a content iff the last commit before it left that content; so a call that demands a content can follow a commit of another one only if a commit between them wrote it back, whatever the other calls on the target are |
| WriteRaces.AtMostOneWins | packages/filesystem/src/index.ts:963-1011 | among any calls on a target that expect the same content and do not produce it, at most one succeeds, unless a call on the target that entered between two of them produces it; calls before them and other calls between them are not restricted |
| WriteRaces.BothWin | packages/filesystem/src/index.ts:660-709 | the exception is needed: two writes that expect the old content both succeed when a third one writes it back between them |
| WriteRaces.OneLocksOut | packages/filesystem/src/index.ts:660-709 | from a commit of another content on, and as long as no commit makes this content, the target does not hold it and no commit replaces it |
| WriteRaces.UndisturbedWrites | packages/filesystem/src/index.ts:653-731 | a write that nobody disturbs and whose precondition holds commits, with exactly this new file, log and queue |
| WriteCases.WriteAlone | packages/filesystem/src/index.ts:653-731 | a write that nobody disturbs commits exactly its content iff its target is missing or a regular file and, to create, missing, or, for a hash, a file with that hash; otherwise no file, temporary file or log entry changes |
| WriteCases.PatchAlone | packages/filesystem/src/index.ts:430-497 | a patch that nobody disturbs, over a file with the expected content that can be patched, ends with exactly the patched bytes in the file |
| WriteCases.PatchAloneRefused | packages/filesystem/src/index.ts:430-497 | in every other case it is refused, and no file, temporary file or log entry changes |
| PatchCases.PatchedIff | packages/filesystem/src/index.ts:432-462 | patched bytes come out iff no old text is empty, the source has at most 16777216 bytes and is text, every old text occurs exactly once, the spans are disjoint and at most 16777216 bytes come out; and they are the encoding of the text that the edits make at their places |
| PatchCases.NewTextStands | packages/filesystem/src/index.ts:952-961 | in the patched text every new text stands where its old text was, moved by the growth of the edits before it |
| PatchCases.RestStands | packages/filesystem/src/index.ts:952-961 | every unit that no edit replaces is kept, moved by the growth of the edits before it |
| PatchCases.ConflictExplains | packages/filesystem/src/index.ts:893-939 | a refused patch is told the first edit whose old text is missing, or stands in that number of places, or two edits of which the one starts inside the other; overlap is reported only when all old texts are unique |
| WriteRaces.QueueDrains | packages/filesystem/src/index.ts:733-746 | no call is stuck: from every reachable state, whatever failed or crashed before, steps of calls on its target numbered up to it settle it |
| ConditionalWrite.NeverBlocked | packages/filesystem/src/index.ts:733-746 | a call whose predecessor has settled, well or badly, comes closer to its end with each step of its own |
| ConditionalWrite.NeverPushedBack | packages/filesystem/src/index.ts:733-746 | nobody else's step takes a call back |
| ConditionalWrite.EarlierSettled | packages/filesystem/src/index.ts:733-746 | when the predecessor of a call has settled, so have all earlier calls on its target |
| FilesystemCode.FilesystemService.SerializeWrite | packages/filesystem/src/index.ts:733-746 | a new call enters, numbered behind all others and with the last one on its target as its predecessor, and runs if its turn has come: then it committed exactly once, whole, what its request asks for over a file its precondition admits, and reports whether that file was missing, its hash, and the hash and size of the new content, or it threw and committed nothing, for a reason that its target showed during the call or a system call that failed; otherwise it is queued and has done nothing |
| FilesystemCode.FilesystemService.Resume | packages/filesystem/src/index.ts:733-746 | a queued call runs iff its predecessor has settled, well or badly, and then all earlier calls on its target have; it is answered iff it ran, its queue entry is gone, and an error is explained by what its target held during the call, by the patch itself, or by a system call that failed |
| FilesystemCode.TurnsInOrder | packages/filesystem/src/index.ts:733-746 | in every reachable state a call that has begun has all earlier calls on its target settled |
| FilesystemCode.FilesystemService.WriteAtomic | packages/filesystem/src/index.ts:653-731 | the flags and the finally block: success is a commit of the whole content over a file that met its precondition at the recheck; failure is a rejection for a link, a directory, a file that did not meet the precondition at some time of the call, or a failed system call; a temporary file is left only when its removal failed |
| FilesystemCode.FilesystemService.CommitFile | packages/filesystem/src/index.ts:687-709 | after a commit the target is exactly the content, a create-only commit found it missing, a rename took the temporary name away; a failed commit changed no file, and the file at the target or a failed system call says why |
| FilesystemCode.FilesystemService.Inspect | packages/filesystem/src/index.ts:756-784 | succeeds iff the precondition admits the file, and returns that file; links, directories and other files are refused with their own errors |
| FilesystemCode.FilesystemService.PatchOperation | packages/filesystem/src/index.ts:430-497 | a patch commits exactly the bytes that its base can be patched to, over the file with the expected hash, or is rejected, for a reason that its target showed, that the base and the edits give, or a failed system call |
| FilesystemCode.FilesystemService.PreparePatch | packages/filesystem/src/index.ts:430-462 | a patch goes on to its write with exactly the bytes that its base can be patched to, or says what kept it from that |
| FilesystemCode.FilesystemService.PatchContent | packages/filesystem/src/index.ts:444-462 | returns the bytes the source can be patched to, and fails iff there are none: too large before, binary, a conflict of the edits that is explained, or too large after |
| ExactPatch.FindAllOccurrences | packages/filesystem/src/index.ts:941-950 | returns exactly the positions where the text occurs, overlapping ones included, each once, in order; terminates for every non-empty text |
| ExactPatch.OccurrencesExact | packages/filesystem/src/index.ts:941-950 | the specification list holds a position iff the text occurs there |
| ExactPatch.PlanExactPatch | packages/filesystem/src/index.ts:893-939 | returns the plan or the first conflict, with its index and count |
| ExactPatch.PlanIffPlannable | packages/filesystem/src/index.ts:893-939 | planning succeeds iff every old text occurs exactly once and all spans are pairwise disjoint |
| ExactPatch.PlanContents | packages/filesystem/src/index.ts:893-939 | a plan uses every edit once, at its only occurrence, in order and apart |
| ExactPatch.NeighboursSuffice | packages/filesystem/src/index.ts:924-938 | comparing neighbours after sorting rules out every overlap |
| ExactPatch.PermutationInvariant | packages/filesystem/src/index.ts:893-961 | every permutation of the edits is planned or refused alike and gives the same text |
| ExactPatch.ApplyPlannedPatch | packages/filesystem/src/index.ts:952-961 | the left-to-right loop gives what splicing the edits one by one from right to left gives |
| ExactPatch.SpliceTail | packages/filesystem/src/index.ts:952-961 | text behind the last edit is carried over unchanged |
| ExactPatch.PatchedLength | packages/filesystem/src/index.ts:952-961 | the length grows by the sum of new minus old lengths |
| ExactPatch.UndoRestores | packages/filesystem/src/index.ts:952-961 | splicing the old texts back at the shifted positions restores the source exactly |
| ExactPatch.UndoShifts | packages/filesystem/src/index.ts:952-961 | every edit is undone by its swapped texts at its start moved by the growth of the edits before it |
| CodePointOrder.CompareCodePoints | packages/filesystem/src/index.ts:1165-1174 | negative iff at the first difference of the code points the left name has the smaller one or has ended, positive iff the right one, zero only of equal names, lone surrogates included |
| CodePointOrder.LessMeans | packages/filesystem/src/index.ts:1168-1173 | the order used by sorting, listing and search: the points agree before some place, and there the lesser name ends or has the smaller number |
| CodePointOrder.OnePair | packages/filesystem/src/index.ts:1166-1167 | a pair of a unit from 0xD800-0xDBFF and one from 0xDC00-0xDFFF is one point, with its number, above all single units |
| CodePointOrder.PointsConcat | packages/filesystem/src/index.ts:1166-1167 | the points of a name are made piecewise, wherever no pair is cut |
| CodePointOrder.StrictTotalOrder | packages/filesystem/src/index.ts:1165-1174 | the order is irreflexive, asymmetric, transitive and total on all names |
| CodePointOrder.SpellInverts | packages/filesystem/src/index.ts:1166-1167 | the code points of a name determine it |
| NameOrder.SortIncreases | packages/filesystem/src/index.ts:273 | sorting distinct names gives strictly increasing names and loses none |
| NameOrder.SortMember | packages/filesystem/src/index.ts:273 | sorting keeps exactly the same entries |
| DirectoryListing.List | packages/filesystem/src/index.ts:251-288 | a cursor of another path or without a name is refused, and nothing else is; the page holds, in order, at most the limit of entries behind the cursor, all of them up to the next cursor, and is full if there is one |
| DirectoryListing.PageHolds | packages/filesystem/src/index.ts:272-285 | a page holds, in order, only entries behind the cursor, and every such entry up to the next cursor; it keeps the limit, and a next cursor comes with a full page and its last name |
| DirectoryListing.CursorComesBack | packages/filesystem/src/index.ts:1184-1206 | every cursor handed out is accepted for the same path |
| DirectoryListing.WalkIncreases | packages/filesystem/src/index.ts:251-288 | however the directory changes between pages, the names of the walk increase strictly |
| DirectoryListing.WalkMissesNothing | packages/filesystem/src/index.ts:251-288 | a name present at all page reads of a finished walk is returned |
| DirectoryListing.FixedDirectoryListsAll | packages/filesystem/src/index.ts:251-288 | on a fixed directory the walk ends and its pages together are the sorted listing |
| TreeSearch.WalkSearch | packages/filesystem/src/index.ts:537-651 | one directory of the walk: the matches taken are those of the expected list that still fit when they come, in order, with exact counts; truncated iff one was refused; past the limit of entries still a subsequence and truncated; results, bytes and files within their bounds at any time |
| TreeSearch.Search | packages/filesystem/src/index.ts:290-355 | a whole search: a subsequence of the expected list for every tree, all of it with exact counts unless truncated, never truncated when it fits, truncated with more than 50,000 entries, and when only results or bytes limit it exactly the matches that fit when they come |
| TreeSearch.AppendSearchMatch | packages/filesystem/src/index.ts:1208-1224 | a match is taken exactly when there is room for it, in number and with its path, its preview and 64 bytes more, else the search is truncated; earlier refusals do not matter |
| TreeSearch.SearchLine | packages/filesystem/src/index.ts:625-646 | the inner loop offers exactly the hits of the line |
| TreeSearch.SearchText | packages/filesystem/src/index.ts:621-647 | the loop over lines offers exactly the matches of the text |
| TreeSearch.SearchFile | packages/filesystem/src/index.ts:585-620 | one file contributes what its kind, size and text demand, and is counted |
| TreeSearch.OfferedTwice | packages/filesystem/src/index.ts:1208-1224 | which matches are taken of two lists after each other does not depend on where they are cut |
| TreeSearch.OfferedNext | packages/filesystem/src/index.ts:1208-1224 | the next match is taken iff fewer than the limit were and the bytes so far, of its path and preview, and 64 more fit |
| TreeSearch.SubMeans | packages/filesystem/src/index.ts:537-651 | a subsequence is read off at increasing positions |
| TreeSearch.SearchedTwice | packages/filesystem/src/index.ts:537-651 | two parts of a walk after each other are a walk of both, also when either was truncated |
| SearchResults.SearchFinds | packages/filesystem/src/index.ts:537-651 | a match is found iff it is a file match of a file that matches the glob and is reached through admitted directories within the depth |
| SearchResults.FindingsInOrder | packages/filesystem/src/index.ts:555-556 | the matches come strictly sorted by path segments, line and column |
| SearchResults.HitsAreGreedy | packages/filesystem/src/index.ts:625-646 | the hits of a line are occurrences that do not overlap, and every occurrence is a hit or overlaps one to its left |
| SearchResults.FileMember | packages/filesystem/src/index.ts:585-647 | which matches one file gives, by query, size and text |
| SearchResults.LineMember | packages/filesystem/src/index.ts:621-647 | a text's matches are exactly its hits, with the line if it has at most 300 units, else its first 300 and an ellipsis |
| SearchResults.LinesCutText | packages/filesystem/src/index.ts:621 | the lines joined by line feeds are the text, and no line holds one |
| SearchCounts.CountsAre | packages/filesystem/src/index.ts:557-620 | without limits a search counts every visited entry, as scanned the files that match the glob, and of them, with a query, those too long and those not text |
| SearchCounts.VisitsExactly | packages/filesystem/src/index.ts:557-583 | the visited entries are exactly what stands at some path through admitted directories within the depth, links and special files included |
| SearchCounts.VisitsIncrease | packages/filesystem/src/index.ts:555-583 | in strictly increasing order of paths, a directory before what it holds, so nothing is visited twice |
| SearchCounts.WalkIsFlat | packages/filesystem/src/index.ts:537-651 | the findings of the recursion are the sum of those of the visited entries |
| OperationProtocol.AtMostOnce | packages/operations/src/index.ts:189-236 | over every run with any executors, crashes and reconcile passes, the effect of an id starts at most once |
| OperationProtocol.NeverForAnother | packages/operations/src/index.ts:114-155 | an id is executed or replayed only for the kind and fingerprint it is bound to, and the answer is the stored one |
| OperationProtocol.JournalStates | packages/operations/src/index.ts:157-183 | version, result and error always fit the state, settled rows never change, and every step moves a row by one legal transition |
| OperationProtocol.StepKeeps | packages/operations/src/index.ts:114-273 | every step keeps rows, claims and executors in agreement |
| OperationProtocol.UndisturbedExecutes | packages/operations/src/index.ts:189-236 | a new id that nobody disturbs is executed, and its result stored |
| OperationProtocol.UndisturbedFails | packages/operations/src/index.ts:219-236 | a new id that nobody disturbs and whose effect fails leaves that error in its row, and throws |
| OperationProtocol.ClaimByRow | packages/operations/src/index.ts:114-155 | from any sound table, a new executor that starts and claims ends as the row of its id demands, case by case, and only a new id changes the table |
| OperationProtocol.ReplayedForever | packages/operations/src/index.ts:201-218 | once a call has returned a result, whatever happens in between, every later call with its id, kind and fingerprint is answered with exactly that result, and one with another kind or fingerprint throws |
| OperationProtocol.AnsweredForever | packages/operations/src/index.ts:195-218 | a stored failure is replayed, and an unknown outcome sent to reconciliation, by every later call, and none runs the effect again |
| OperationTable.ReconcileSettles | packages/operations/src/index.ts:174-183 | a pass leaves no accepted or running row, and an immediate second pass changes nothing and returns 0 |
| OperationTable.ReplayHasData | packages/operations/src/index.ts:201-218 | a replay never meets a committed row without result or a failed row without error |
| OperationJournalCode.OperationJournal.Execute | packages/operations/src/index.ts:189-236 | with anybody acting in between, the row that the call meets at its claim decides its answer: none runs the effect, another kind or fingerprint throws, committed and failed are replayed with that row, unknown demands reconciliation, accepted and running are reported; a returned result is the effect's own and stored for this kind and fingerprint; a failed effect has left its error in the row, unless a reconcile pass came first |
| OperationJournalCode.OperationJournal.Prepare | packages/operations/src/index.ts:114-155 | the claim inserts an accepted row for a new id, and classifies any other by its row alone, leaving the table as it is |
| OperationJournalCode.OperationJournal.MarkRunning | packages/operations/src/index.ts:157-172 | the guarded update changes one accepted row or reports that none was |
| OperationJournalCode.OperationJournal.MarkCommitted | packages/operations/src/index.ts:238-255 | the guarded update stores the result of a running row or reports that none was |
| OperationJournalCode.OperationJournal.MarkFailed | packages/operations/src/index.ts:257-273 | the guarded update stores the error of a running row or reports that none was |
| OperationJournalCode.OperationJournal.ReconcileInterrupted | packages/operations/src/index.ts:174-183 | no open row remains, and the count is that of the rows changed |
| MigrationProtocol.AppliedOnce | packages/storage/src/index.ts:124-165 | over every run of any processes, effect and record of a migration are there together or not at all, the effect once, the checksum its own |
| MigrationProtocol.OneApplies | packages/storage/src/index.ts:150-160 | no two processes report having applied the same id |
| MigrationProtocol.FinishedRecorded | packages/storage/src/index.ts:124-165 | a process that returns leaves its whole list, which has no empty id, recorded with matching checksums |
| MigrationProtocol.SecondPassSkips | packages/storage/src/index.ts:141-148 | applying a recorded list skips all of it and changes nothing |
| MigrationProtocol.FirstPass | packages/storage/src/index.ts:124-165 | an undisturbed process whose ids are distinct, not empty and not recorded, and whose statements execute, finishes with applied the ids in order and nothing skipped, each executed once in that order and recorded with its checksum |
| MigrationProtocol.MixedPass | packages/storage/src/index.ts:124-165 | with some of them recorded with their checksums, exactly the others are applied and those are skipped, both in the order of the list, with exactly their executions and records added |
| MigrationCode.SqliteDatabase.ApplyMigrations | packages/storage/src/index.ts:124-165 | with anybody acting in between, the call makes a run of the protocol; when it returns, its whole list is recorded and every migration was applied or skipped, and what it reports as applied was its own effect; when it throws, the migration it has come to has an empty id, is recorded with another checksum, or was found unrecorded and then its statements did not execute or another process recorded it |
| MigrationCode.SqliteDatabase.Transaction | packages/storage/src/index.ts:150-156 | effect and record appear together iff the statements execute and the id is without a record, or nothing changes |
| StableRead.BracketedRead | packages/instructions/src/index.ts:397-441 | a returned document is the decoding of bytes read in this call, at most 262144, between two equal probes that agree with their number, after at most three attempts |
| StableRead.AbsentIff | packages/instructions/src/index.ts:382-392 | the file is absent iff the first probe says so |
| StableRead.StillFileIsRead | packages/instructions/src/index.ts:397-441 | a text file that does not change is read at the first attempt |
| StableRead.SettlesAndIsRead | packages/instructions/src/index.ts:396-441 | a text file that changes during at most two attempts and then stays the same is read at the next one |
| StableRead.NeverSettles | packages/instructions/src/index.ts:444-448 | one that changes during three attempts is given up |
| StableRead.FailureMeans | packages/instructions/src/index.ts:384-448 | every failure is explained by the last thing the call saw: a failed first probe is thrown as it is, a failed read or later probe mapped, else a size was above 262144, stable bytes were not text, or three attempts were used up |
| InstructionsCode.InstructionsService.ReadInstructionFile | packages/instructions/src/index.ts:378-449 | whatever the cache holds and other calls do to it, the answer is that of a reader without a cache to what this call saw; the cache then holds the document, or nothing when the file is absent |
| InstructionsCode.InstructionsService.Keep | packages/instructions/src/index.ts:426-438 | a cached content of equal digest is the decoding of the bytes just read |
| JsonGraph.AcceptsIffJson | packages/contracts/src/contracts.ts:274-307 | the recursion accepts a value iff everything reachable is of a JSON kind and no way down meets an object twice |
| JsonGraph.AcceptsByKind | packages/contracts/src/contracts.ts:275-306 | kind by kind: which primitives are accepted, and that every item of an array and every field of a record without a prototype of its own is looked at, below one more ancestor |
| JsonGraph.IsJsonValue | packages/contracts/src/contracts.ts:274-307 | terminates on every finite graph, cyclic or not; at every call, nested ones included, the shared set holds exactly the objects on the way down to the value, and on every return again; decides acceptance below them |
| JsonGraph.IsJson | packages/contracts/src/contracts.ts:274-307 | the public entry decides whether the graph is JSON; shared acyclic references are accepted |
| JsonGraph.FreshIffNoRepeat | packages/contracts/src/contracts.ts:287-290 | the membership test along a path finds exactly the repeated objects |
| Porcelain.ParseWorktreePorcelain | packages/workspace/src/git-worktree.ts:122-164 | the token loop computes the specified records |
| Porcelain.ParseInvertsPrint | packages/workspace/src/git-worktree.ts:122-164 | parsing inverts the NUL-terminated printing of any records with NUL-free fields, empty and non-empty reasons and ignored attributes included |
| Porcelain.ParsesExactly | packages/workspace/src/git-worktree.ts:122-164 | any output, well printed or not, parses to one record for every token that begins with `worktree `, in order, its path the rest, and each field as the last token gives it that names it before an empty token, the next record or the end |
| Porcelain.TokensCut | packages/workspace/src/git-worktree.ts:126 | the tokens joined by NULs are the output, and no token holds one |
| Porcelain.BareAndDetachedIgnored | packages/workspace/src/git-worktree.ts:140-158 | `bare` and `detached` are among the attributes passed over |

## Left out

- WorkspaceRegistryCode.WorkspaceRegistry.CreateLockedWorktree: Git is three steps, branch, locked directory and head; an empty directory that Git would accept as a target counts as occupied.
- WorkspaceRegistryCode.WorkspaceRegistry.OpenWorktree: the resolution of the requested path, repository root and base commit before the first database read is not part of it, and the program throws only where it calls Git or the file system, while the protocol lets every point throw. Which of its calls fail is open for an open that the surroundings make faulty.
- WorkspaceRegistryCode.WorkspaceRegistry.Get: the two reads of the row at the beginning are one.
- FilesystemCode.FilesystemService.SerializeWrite: checks before the queue (content size of a write, number of edits, path and parent) are not part of it. A waiting call is resumed by calling Resume; when that happens is up to the event loop.
- TreeSearch.Search: the tree is fixed during a search, every admitted directory can be read, and a file that is too large for a safe integer is too large for the limit.
- WorktreeClosure.ClosedAmongOthers: openers of the key that were already there take no further steps, and what the key's targets resolve to exists; outside changes of files and worktree records are not among the interleaved steps, since they can open a closed key.
- InstructionsCode.InstructionsService.ReadInstructionFile: the `lstat`, `realpath` and `stat` of one metadata probe are one event; its answer is unconstrained, so the answers of interrupted probes are among those covered.
- DirectoryListing.List: the encoding of the cursor, and entries whose metadata cannot be read.
- OperationJournalCode.OperationJournal.Execute: a database call that throws by itself is a step of the protocol, not of the program.
- MigrationCode.SqliteDatabase.ApplyMigrations: the SQL of a migration is one effect that either runs or throws.
- JsonGraph.IsJsonValue: array holes, which `every` skips, and proxies or getters.
- Texts of error messages, details_json, timestamps, requested paths and owner metadata: carried along, decided by nothing.
- File modes, `fsync` of files and directories and the reported durability.
- Byte-range reads of files: a chunk boundary may split a character, so no content law holds for them.
- Instruction scopes, the total size limit and skills: sums and field checks around the read that is modelled.
- Wall-clock delays: waiting is a bounded number of attempts with other steps in between.
- RPC, HTTP and socket handling, the edge package, schemas and parameter readers.
