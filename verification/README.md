# Verified model of the collaboration server's core

A Dafny model of the parts of the repository that carry state or an argument: the line
diff, the kanban board in both stores, the editor's text synchronisation, the wiki's page
forest and version history, what guests see, membership and invitations, and the sprint
burndown. `dafny verify dfyconfig.toml` checks all of it (Dafny 4.11).

Code that changes things in place is modelled as classes and loops (`BoardStore`,
`CardRows.Table`, `PageStore`, `MemberStore`, `WikiService`, `MemberService`,
`CollabIME.SyncIME`); each of their methods is tied to a function on values, and the
properties are proved about those functions and about whole runs of them. A run theorem
holds from any state that meets the invariant; the empty stores do (`BoardRuns.EmptyInv`,
`WikiModel.EmptyInv`, `WikiThreads.StartInv`, `Membership.StartInv`).

| module | what it holds |
|---|---|
| `Common`, `Roles` | shared types and list facts; roles |
| `LineDiff` | the diff, its optimality, canonicity and round trip |
| `ImeDiff`, `CollabIME` | the smallest replacement; editor and shared text over runs |
| `BoardModel`, `BoardRuns`, `BoardStore` | the board: specification and invariant, moves and runs, the in-memory store |
| `BoardOutcomes`, `WikiOutcomes`, `MemberOutcomes` | what each operation answers and changes, in literal terms, without naming the functions that compute it |
| `CardRows`, `CardRefinement` | card rows of the relational store; how far its move refines the in-memory one |
| `Burndown` | sprint windows and the burndown over board runs |
| `Forest`, `PageTree` | parent pointers; the page tree and the guest filter |
| `PageModel`, `PageStore`, `PageHistory` | pages, their parent check, subtree archiving, version history in both stores |
| `WikiModel`, `WikiThreads` | wiki requests one after the other, and every interleaving of their store calls |
| `WikiRuns`, `MemberRuns` | along every interleaving: no lost update, and who stands behind each change |
| `GuestView`, `WikiService` | lookup, search and tree for guests; the requests as checks and store calls |
| `MemberCalls`, `MemberStore`, `Membership`, `MemberService` | membership and invitations: store calls, every interleaving of requests, each request on its own |

## What the proofs found

- The relational store's move within one column reads the column with the moved card still
  in it. It does what the in-memory store does, answer included, exactly when the asked
  position is no later than the card's place in that list (`SameColumnMoveRefinesIff`). A move
  down by one can be lost (`OneDownIsLost`); a move to the end gets the order right but answers
  and stores one position too many (`EndIsMisnumbered`), which is what a drop on the card's own
  column asks for (apps/web/components/KanbanBoard.tsx:202).
- The service method that creates a page checks the title without trimming it, and updating
  trims first. Taken alone it accepts a title of white space, and that version cannot be
  restored (`BlankTitleCannotBeRestored`; the exact condition is in `RestoreSucceedsIff`). Its
  one caller trims first (apps/api/internal/web/server.go:763), so in the program every retained
  version can be restored exactly (`RestoreSucceedsAfterTrimmedRun`).
- Recording history is a call of its own after the page write. Between requests newest entry
  and live page agree. Among requests in flight they agree exactly when the last record to run
  carried the page's last content write, or one with the same title, body and status
  (`WikiThreads.EveryInterleaving`); two updates whose records cross leave them apart
  (`WikiThreads.CrossedRecordsDisagree`).
- The policy update checks the use limit against a count read earlier. In serial use no
  count exceeds the current limit; in an interleaving it can (`RaceExceedsLimit`), exactly when
  a policy write lowers a limit below the uses there have been by then (`StaysWithinLimitIff`),
  though never above the largest limit the invitation had.
- Completion follows a card's moves, not its column's name. Along a run cards count as completed
  exactly when their column is a done one, as long as no column with cards is renamed into or out
  of that (`BoardOutcomes.RunFitsIff`): renaming leaves the marks as they were.
- Roles are checked once, before the writes. Every change of a membership or invitation still goes
  back to a request that was entitled to it (`MemberRuns.MemberChangesAreEntitled`), and an owner
  at the check is an owner at the write (`MemberRuns.OwnersStay`).
- Remote edits that arrive during a composition are overwritten when it ends
  (`CompositionOverwritesRemote`).
- The count of owners that guards removal and demotion never finds two owners: an owner is
  only made when a workspace is created, and the guard then refuses (`EveryInterleaving`).

## Model

| member | source | states |
|---|---|---|
| `LineDiff.JoinSplitLines` | apps/api/internal/domain/diff.go:5-10 | Joining the split of any text with newlines gives the text back, the empty text included. |
| `LineDiff.SplitJoinIff` | apps/api/internal/domain/diff.go:5-10 | Splitting undoes joining exactly for the lists without a newline in any line, other than the list of one empty line (which joins to the empty text and splits to no lines). |
| `LineDiff.FillRow` | apps/api/internal/domain/diff.go:20-32 | One row of the table, filled in place from the right, holds the true common-subsequence lengths of its suffixes; no other row changes. |
| `LineDiff.FillTable` | apps/api/internal/domain/diff.go:15-34 | After the two descending loops every cell is the length of the longest common subsequence of the two suffixes it stands for. |
| `LineDiff.WalkTable` | apps/api/internal/domain/diff.go:35-60 | The forward walk with its two tail loops reads off the table one fixed script, a function of the two line lists alone. |
| `LineDiff.LineDiff` | apps/api/internal/domain/diff.go:13-61 | For all texts: dropping inserts and joining gives the old text, dropping deletes gives the new one, no common subsequence is longer than the kept lines, no script has fewer changes, no equally short script comes earlier, and there are no changes exactly when the texts are equal. |
| `LineDiff.WalkIsScript` | apps/api/internal/domain/diff.go:37-60 | The emitted lines are a script between the two line lists: equals and deletes spell the old one, equals and inserts the new one. |
| `LineDiff.LcsIsUpperBound` | apps/api/internal/domain/diff.go:19-34 | The recurrence behind the table bounds every common subsequence, so taking equal heads at once is safe. |
| `LineDiff.WalkKeepsLcs` | apps/api/internal/domain/diff.go:37-60 | The walk keeps as many lines as the recurrence promises. |
| `LineDiff.ScriptKeepsAtMostLcs` | apps/api/internal/domain/diff.go:19-34 | No script between the two lists keeps more lines than the recurrence allows. |
| `LineDiff.WalkIsOptimal` | apps/api/internal/domain/diff.go:19-60 | No common subsequence is longer than the kept lines, and no script between the lists has fewer deletes and inserts. |
| `LineDiff.WalkIsLeast` | apps/api/internal/domain/diff.go:37-60 | Among all scripts that keep as much, the emitted one is lexicographically least under equal < delete < insert. |
| `LineDiff.NotAfterAntisymmetric` | apps/api/internal/domain/diff.go:37-60 | That order ranks two different scripts strictly, so the least script is the only one. |
| `LineDiff.NoChangesIff` | apps/api/internal/domain/diff.go:13-61 | The diff reports no change exactly when the two texts are the same. |
| `LineDiff.WalkMeetsPromises` | apps/api/internal/domain/diff.go:13-61 | All of the diff's promises together, for every pair of texts. |
| `ImeDiff.DiffEnds` | apps/web/lib/imeDiff.ts:2-15 | The replacement turns the first text into the second, starts at the end of the longest common prefix, ends at the longest suffix that does not overlap it, is empty exactly when the texts are equal, and no single replacement takes out or puts in less. |
| `ImeDiff.TightIsSmallest` | apps/web/lib/imeDiff.ts:2-15 | Any replacement with a maximal prefix and then a maximal suffix has both middles of minimum length among all single replacements between the texts. |
| `CollabIME.ChangesForDelta` | apps/web/components/yCollabIME.ts:10-22 | The changes listed for a remote delta are ordered, disjoint and in old-document coordinates, and applying them at once gives the text the delta gives, for every text the delta fits. |
| `CollabIME.DeltaChangesApply` | apps/web/components/yCollabIME.ts:10-25 | From any point of a delta on, its translation into old-document changes means the same as the rest of the delta. |
| `CollabIME.SyncIME.Update` | apps/web/components/yCollabIME.ts:70-90 | Replaying a local change set one by one with the running offset gives the shared text that applying it at once gives; a change from the shared text, or one during composition, is not replayed. |
| `CollabIME.SyncIME.ReplaceRange` | apps/web/components/yCollabIME.ts:81-86 | Deleting and inserting at the shifted place replaces exactly that range of the shared text. |
| `CollabIME.SyncIME.Dispatch` | apps/web/components/yCollabIME.ts:23-25 | A dispatched change set is applied to the document and, unless it came from the shared text or a composition is open, to the shared text as well. |
| `CollabIME.SyncIME.Observe` | apps/web/components/yCollabIME.ts:54-62 | A remote delta reaches the document as the delta says and is not echoed; own transactions, and deltas during composition, are ignored. |
| `CollabIME.SyncIME.FlushLocalToYtext` | apps/web/components/yCollabIME.ts:28-44 | After a flush the shared text is the document. |
| `CollabIME.SyncIME.OnLocalEdit` | apps/web/components/yCollabIME.ts:70-90 | A local edit moves editor and shared text as one step of the run machine. |
| `CollabIME.SyncIME.OnRemoteEdit` | apps/web/components/yCollabIME.ts:54-62 | A remote edit moves editor and shared text as one step of the run machine. |
| `CollabIME.SyncIME.OnCompositionStart` | apps/web/components/yCollabIME.ts:58-60 | Opening a composition changes no text. |
| `CollabIME.SyncIME.OnCompositionEnd` | apps/web/components/yCollabIME.ts:64-67 | Closing a composition flushes the document into the shared text. |
| `CollabIME.RunStaysInSync` | apps/web/components/yCollabIME.ts:46-97 | Over every run of local edits, remote edits and compositions, document and shared text are equal whenever no composition is open. |
| `CollabIME.CompositionOverwritesRemote` | apps/web/components/yCollabIME.ts:28-44 | Whatever arrives from elsewhere while a composition is open, the flush at its end leaves both texts as what was typed locally. |
| `BoardModel.InvMeaning` | apps/api/internal/store/memory/store.go:24-28 | The board invariant in whole lists: a board's column list is non-empty, without repeats and exactly its columns; a column's card list is without repeats and exactly its cards. |
| `BoardModel.CreateBoardKeepsInv` | apps/api/internal/store/memory/store.go:388-419 | Creating a board with its default columns keeps every index and position in step. |
| `BoardModel.CreateColumnKeepsInv` | apps/api/internal/store/memory/store.go:503-521 | Adding a column keeps the board invariant. |
| `BoardModel.RenameColumnKeepsInv` | apps/api/internal/store/memory/store.go:523-533 | Renaming a column keeps the board invariant. |
| `BoardModel.DeleteColumnKeepsInv` | apps/api/internal/store/memory/store.go:535-564 | Deleting a column is refused for the last one and for one with cards, and otherwise keeps the invariant with the rest renumbered. |
| `BoardModel.ReorderColumnsKeepsInv` | apps/api/internal/store/memory/store.go:566-596 | Accepting any permutation of a board's columns keeps the invariant. |
| `BoardModel.CreateCardKeepsInv` | apps/api/internal/store/memory/store.go:598-628 | Adding a card keeps the invariant. |
| `BoardModel.UpdateCardKeepsInv` | apps/api/internal/store/memory/store.go:654-687 | Editing a card, its sprint included, keeps the invariant; a sprint of another board is refused. |
| `BoardModel.CreateSprintKeepsInv` | apps/api/internal/store/memory/store.go:1316-1334 | Creating a sprint keeps the invariant. |
| `BoardModel.UpdateSprintKeepsInv` | apps/api/internal/store/memory/store.go:1367-1386 | Changing a sprint's name and dates keeps the invariant. |
| `BoardModel.DeleteSprintKeepsInv` | apps/api/internal/store/memory/store.go:1388-1402 | Deleting a sprint clears it from every card, so no card names a sprint that is gone. |
| `BoardModel.ArchiveBoardKeepsInv` | apps/api/internal/store/memory/store.go:421-444 | Archiving and unarchiving a board keep the invariant. |
| `BoardRuns.MoveCardLists` | apps/api/internal/store/memory/store.go:689-743 | A move is removal from the source list followed by insertion into the target list at the clamped position, within one column and across two; other lists only lose the card, which none of them held. |
| `BoardOutcomes.MoveCardOutcome` | apps/api/internal/store/memory/store.go:689-743 | A move is accepted exactly for a known card at its current version and a column of its board; then the card is in that column at the position clamped to the others in it, one version on, completed exactly if the column's trimmed name spells done in any letter case, since when it was completed before or else since now; every refusal has its error, a stale version the stored card, and changes nothing. |
| `BoardRuns.MoveCardOrder` | apps/api/internal/store/memory/store.go:689-743 | All other cards keep their relative order in every column, the moved card is in the target list only, and no list gains a repeat. |
| `BoardRuns.MoveCardOthers` | apps/api/internal/store/memory/store.go:689-751 | Every other card keeps its column, sprint, times and version; only its position may change, and it is then its index in its list. |
| `BoardRuns.MoveCardKeepsInv` | apps/api/internal/store/memory/store.go:689-751 | Every move, refused or accepted, keeps the board invariant. |
| `BoardRuns.MoveBackRestores` | apps/api/internal/store/memory/store.go:689-751 | Moving a card back to the column and position it came from is accepted and restores every list and every other card. |
| `BoardRuns.RunKeepsInv` | apps/api/internal/store/memory/store.go:388-751 | Over every run of board, column, card and sprint calls the invariant holds: lists and positions agree, every card is in one list, every card's sprint is a live sprint of its board. |
| `BoardRuns.RunKeepsTimes` | apps/api/internal/store/memory/store.go:598-751 | Under a clock that never goes back, every run keeps completion times at or after creation times. |
| `BoardOutcomes.MoveToDefaults` | apps/api/internal/store/memory/store.go:731-738 | An accepted move into a column named "Done" leaves the completion time the card had, or else sets it to now; one into "To Do" clears it. |
| `BoardOutcomes.DoneNames` | apps/api/internal/domain/sprint.go:8-10 | A column is a done one exactly if its name, without white space around it and in lower case, is "done". |
| `BoardOutcomes.CreateCardOutcome` | apps/api/internal/store/memory/store.go:598-628 | A card goes in exactly for a known column of a known board: last in it, at version 1, completed at once exactly if the column is a done one. |
| `BoardOutcomes.UpdateCardOutcome` | apps/api/internal/store/memory/store.go:654-687 | An edit is accepted exactly for a known card at its current version with no sprint or a live one of its board; it changes what was given and neither place nor completion; a stale version is answered with the stored card. |
| `BoardOutcomes.ReorderColumnsOutcome` | apps/api/internal/store/memory/store.go:566-596 | A reordering is accepted exactly for a permutation; the board then lists its columns in the asked order and numbers them by it, and nothing else changes. |
| `BoardOutcomes.DeleteColumnOutcome` | apps/api/internal/store/memory/store.go:535-564 | A column goes exactly if it is known, empty and not its board's only one; the others keep their order and are numbered by it. |
| `BoardOutcomes.CreateColumnOutcome` | apps/api/internal/store/memory/store.go:503-521 | A new column is its board's last, and empty. |
| `BoardOutcomes.CreateBoardOutcome` | apps/api/internal/store/memory/store.go:388-419 | A new board has the columns "To Do", "In Progress" and "Done", in this order and empty. |
| `BoardOutcomes.DeleteSprintOutcome` | apps/api/internal/store/memory/store.go:1388-1402 | Deleting a sprint takes it off its own cards, otherwise as they were, and leaves every other card and all else alone. |
| `BoardOutcomes.SprintOutcomes` | apps/api/internal/store/memory/store.go:1316-1386 | A sprint is filed with what was asked, on a known board; an update changes what was given and keeps the rest. |
| `BoardOutcomes.CallFitsIff` | apps/api/internal/store/memory/store.go:523-533 | If each card counts as completed exactly when its column is a done one, one call keeps that if and only if it does not rename a column with cards so that it becomes, or stops being, a done one. |
| `BoardOutcomes.RunFitsIff` | apps/api/internal/store/memory/store.go:388-751 | Along every run each card counts as completed exactly when its column is a done one, at every point, if and only if no such rename happens on the way. |
| `BoardOutcomes.NoCardChangeIsLost` | apps/api/internal/store/memory/store.go:654-743 | Along every run no two accepted edits or moves of a card name the same version, and later ones name higher ones, so none overwrites another unseen. |
| `BoardStore.Store.CreateBoard` | apps/api/internal/store/memory/store.go:388-419 | In place, with the loop over default columns: the new maps, the board and its columns in order are the specified ones, and the invariant holds. |
| `BoardStore.Store.ArchiveBoard` | apps/api/internal/store/memory/store.go:421-432 | Sets the archive time of one board and nothing else; a missing board is an error. |
| `BoardStore.Store.UnarchiveBoard` | apps/api/internal/store/memory/store.go:434-444 | Clears the archive time of one board and nothing else. |
| `BoardStore.Store.CreateColumn` | apps/api/internal/store/memory/store.go:503-521 | Appends a column at the end of its board's list. |
| `BoardStore.Store.RenameColumn` | apps/api/internal/store/memory/store.go:523-533 | Changes a column's name and nothing else, so completion marks stay as they were. |
| `BoardStore.Store.DeleteColumn` | apps/api/internal/store/memory/store.go:535-564 | The loop that rebuilds and renumbers the list yields the specified state, with each refusal in its place. |
| `BoardStore.Store.ReorderColumns` | apps/api/internal/store/memory/store.go:566-596 | The element-by-element check accepts exactly the permutations of the current list (as multisets) and then renumbers. |
| `BoardStore.RejectedOrder` | apps/api/internal/store/memory/store.go:573-588 | A repeated or unknown id in a proposed order means it is no permutation of the current one. |
| `BoardStore.Store.CreateCard` | apps/api/internal/store/memory/store.go:598-628 | Appends a card to its column, completed at creation when the column is a done column. |
| `BoardStore.Store.UpdateCard` | apps/api/internal/store/memory/store.go:654-687 | Applies an edit under the version check; a stale version hands back the stored card. |
| `BoardStore.Store.MoveCard` | apps/api/internal/store/memory/store.go:689-743 | The in-place removal, clamping, insertion and two renumberings yield the move whose answer, completion included, `BoardOutcomes.MoveCardOutcome` spells out, with every refusal in its place. |
| `BoardStore.Store.TakeOut` | apps/api/internal/store/memory/store.go:707-716 | The loop that rebuilds the source list and the renumbering after it take out exactly the moved card. |
| `BoardStore.Store.PutIn` | apps/api/internal/store/memory/store.go:718-727 | Insertion at the clamped position and the renumbering after it. |
| `BoardStore.Store.ReindexColumn` | apps/api/internal/store/memory/store.go:745-751 | The renumbering loop gives each listed card its index and touches no other card. |
| `BoardStore.Store.CreateSprint` | apps/api/internal/store/memory/store.go:1316-1334 | Adds a sprint to a live board. |
| `BoardStore.Store.UpdateSprint` | apps/api/internal/store/memory/store.go:1367-1386 | Changes what was asked of a sprint and keeps the rest. |
| `BoardStore.Store.DeleteSprint` | apps/api/internal/store/memory/store.go:1388-1402 | The loop over all cards clears exactly the deleted sprint. |
| `CardRows.ListingExists` | apps/api/internal/store/postgres/store.go:917-932 | Ordering by position and then id gives some listing for every set of rows. |
| `CardRows.SortedUnique` | apps/api/internal/store/postgres/store.go:917-932 | That listing is the only one. |
| `CardRows.ListingIs` | apps/api/internal/store/postgres/store.go:917-932 | Any sorted list of a column's cards is the listing the query gives. |
| `CardRows.Table.ColumnCardIDs` | apps/api/internal/store/postgres/store.go:917-932 | The query's result is the column's cards sorted by position and id. |
| `CardRows.Table.ApplyPositions` | apps/api/internal/store/postgres/store.go:948-955 | The update loop gives each listed row its index and touches no other row. |
| `CardRows.Table.ReindexWithout` | apps/api/internal/store/postgres/store.go:934-946 | Renumbers a column as if one card were not in it, and leaves that card's own number alone. |
| `CardRows.Table.MoveCard` | apps/api/internal/store/postgres/store.go:848-915 | The transaction's row updates, in order, yield the rows and the answer that `CardRefinement.MoveRowsOutcome` spells out, with every refusal in its place. |
| `CardRefinement.CrossTarget` | apps/api/internal/store/postgres/store.go:848-915 | After a move between columns the target lists its old cards with the moved one at the clamped position, numbered without gaps. |
| `CardRefinement.CrossSource` | apps/api/internal/store/postgres/store.go:848-915 | After a move between columns the source lists its other cards in order, numbered without gaps. |
| `CardRefinement.OtherColumns` | apps/api/internal/store/postgres/store.go:848-915 | No third column's listing changes. |
| `CardRefinement.CrossColumnMoveRefines` | apps/api/internal/store/postgres/store.go:848-955 | Whenever the rows represent the maps, a move to another column (accepted or refused) gives the same answer as the in-memory store and rows that again represent its maps, with both columns numbered without gaps. |
| `CardRefinement.SelfListing` | apps/api/internal/store/postgres/store.go:871-878 | Within one column the list read after renumbering still holds the moved card, at a place its old number and id decide. |
| `CardRefinement.SameColumnResult` | apps/api/internal/store/postgres/store.go:848-955 | Where a move within a column really puts the card. |
| `CardRefinement.SameColumnOrderIff` | apps/api/internal/store/postgres/store.go:848-955 | The order alone agrees with the in-memory store if and only if the asked position is at most that place, or at least the column's length. |
| `CardRefinement.SameColumnAnswerIff` | apps/api/internal/store/postgres/store.go:848-955 | The answers agree, position included, if and only if the asked position is inside the column. |
| `CardRefinement.SameColumnDenseIff` | apps/api/internal/store/postgres/store.go:848-955 | The column ends up numbered without gaps if and only if the card's place in the list read back is the last and the asked position is inside the column. |
| `CardRefinement.SameColumnMoveRefinesIff` | apps/api/internal/store/postgres/store.go:848-955 | A move within one column does what the in-memory store does, answer included, if and only if the asked position is at most the card's place in the list read back; the column is then also numbered without gaps if and only if that place is the last. |
| `CardRefinement.OneDownIsLost` | apps/api/internal/store/postgres/store.go:848-955 | A concrete column of two cards where moving the first one down is accepted, answered with position 1, and changes nothing. |
| `CardRefinement.EndIsMisnumbered` | apps/api/internal/store/postgres/store.go:848-955 | The same column, where moving the first card to the end gives the right order but answers and stores position 2. |
| `CardRefinement.MoveRowsOutcome` | apps/api/internal/store/postgres/store.go:848-915 | The transaction accepts a move exactly for a known card at its current version and a column of its board; the answer is the stored row, in that column, one version on, completed as the column's name says (into "Done" since before or now, into "To Do" not); every refusal has its error and changes no row. |
| `CardRows.IdLessIff` | apps/api/internal/store/postgres/store.go:917-932 | Ids of equal position are listed letter by letter, a proper beginning first. |
| `Burndown.EachUTCDate` | apps/api/internal/domain/sprint.go:17-29 | The loop lists every UTC day from the first to the last of the window, once, in order, and nothing else. |
| `Burndown.ValidWindowIff` | apps/api/internal/domain/sprint.go:31-43 | A window is valid exactly when it ends after it starts and its days are at most 89 apart. |
| `Burndown.BurndownFor` | apps/api/internal/domain/sprint.go:56-74 | One point per day of the window with the number of the sprint's cards open that day; a valid window gives between 1 and 90 points. |
| `Burndown.RemainingIsCreatedMinusCompleted` | apps/api/internal/domain/sprint.go:45-74 | When completions do not precede creations, each point is the cards created by that day minus those completed by it. |
| `Burndown.RemainingFallsWithoutCreation` | apps/api/internal/domain/sprint.go:45-74 | Over days in which no card of the sprint is created the burndown never rises. |
| `Burndown.ListCardsOnBoard` | apps/api/internal/store/memory/store.go:1404-1417 | Returns every card of the board once; a missing board is an error. |
| `Burndown.BoardListCountsSprint` | apps/api/internal/service/sprints.go:98-108 | Counting over the board's cards misses none of a live sprint's cards anywhere in the store. |
| `Burndown.BurndownAfterRun` | apps/api/internal/service/sprints.go:98-108 | After every run under a clock that never goes back, each burndown point is created minus completed and counts all of the sprint's open cards in the store. |
| `Burndown.RunKeepsWindows` | apps/api/internal/service/sprints.go:10-85 | Over every run whose sprint windows passed the service's check, every stored sprint has between 1 and 90 days. |
| `Burndown.OpenMeans` | apps/api/internal/domain/sprint.go:43-54 | At the end of a day, that is before the next midnight in UTC, a card counts as open exactly if it was created and not completed by then. |
| `Burndown.ValidWindowMeans` | apps/api/internal/domain/sprint.go:31-41 | A window is valid exactly if it ends after it starts and its last midnight is at most 89 days after its first. |
| `PageTree.FilterGuestPages` | apps/api/internal/domain/tree.go:39-70 | Keeps, in order, exactly the pages whose whole chain of ancestors exists in the list and has status "published"; cyclic and dangling chains are out. |
| `PageTree.ChainVisible` | apps/api/internal/domain/tree.go:49-64 | The walk up terminates on any parent pointers and succeeds exactly when the chain of published pages reaches the root. |
| `PageTree.GroupByParent` | apps/api/internal/domain/tree.go:6-19 | Each group holds its parent's pages, each as often as listed, ordered by position and creation time. |
| `PageTree.SortKids` | apps/api/internal/domain/tree.go:11-18 | A group comes out sorted and a permutation of what went in. |
| `PageTree.BuildNodes` | apps/api/internal/domain/tree.go:22-36 | The recursion terminates and gives each node all of its own children, in order. |
| `PageTree.BuildPageTree` | apps/api/internal/domain/tree.go:5-20 | For unique non-empty ids and arbitrary parent pointers, cycles included, the result is the tree of the pages below the root. |
| `PageTree.TreeHoldsSubtree` | apps/api/internal/domain/tree.go:22-36 | The ids in the tree under a parent are exactly the pages below that parent. |
| `PageTree.TreeHoldsRootedOnce` | apps/api/internal/domain/tree.go:5-36 | The whole tree holds exactly the pages whose parent chain reaches the root inside the list, each once. |
| `PageTree.TreeShowsPages` | apps/api/internal/domain/tree.go:5-36 | Each node shows its own page, under its parent, and siblings stand by position and then creation time. |
| `Forest.RootedAcyclic` | apps/api/internal/store/memory/store.go:894-925 | A page that reaches the root is not below itself. |
| `Forest.ReparentKeepsForest` | apps/api/internal/store/memory/store.go:894-925 | Hanging a page under a rooted page that is neither it nor below it keeps the whole forest. |
| `PageStore.WalkUp` | apps/api/internal/store/memory/store.go:908-924 | The walk with its seen-set terminates on any page map; it succeeds exactly when the chain leaves the map without meeting the page. |
| `PageStore.Store.ValidateParent` | apps/api/internal/store/memory/store.go:894-925 | Each of the check's errors, on any page map. |
| `PageModel.ParentCheckExact` | apps/api/internal/store/memory/store.go:894-925 | In a forest the check accepts exactly the empty parent, or an existing page of the same workspace that is neither the page nor below it. |
| `WikiOutcomes.UpdatePageOutcome` | apps/api/internal/store/memory/store.go:863-892 | The optimistic lock: an update is accepted exactly for a known page, its current lock version and a parent that fits (none, or a page of the workspace that is neither the page nor below it); any other version is answered with the stored page and changes nothing; an accepted one changes what was given and goes one version on. |
| `WikiOutcomes.CreatePageOutcome` | apps/api/internal/store/memory/store.go:753-784 | A page goes in exactly for a known workspace and a fitting parent, at lock version 1 and not archived. |
| `WikiOutcomes.ArchivePageOutcome` | apps/api/internal/store/memory/store.go:786-815 | Archiving marks, and unarchiving clears, the page and everything below it, and nothing else. |
| `PageModel.CreatePageKeepsForest` | apps/api/internal/store/memory/store.go:753-784 | Creating a page keeps the forest. |
| `PageModel.UpdatePageKeepsForest` | apps/api/internal/store/memory/store.go:863-892 | Updating or re-parenting a page keeps the forest. |
| `PageModel.RunKeepsForest` | apps/api/internal/store/memory/store.go:753-892 | In every reachable state the parent pointers form a forest, no page is below itself, and a parent is in its child's workspace. |
| `PageStore.DescendantPageIDs` | apps/api/internal/store/memory/store.go:817-826 | On a forest the recursion terminates and lists every strict descendant exactly once. |
| `PageStore.RecursiveTree` | apps/api/internal/store/postgres/wiki.go:133-138 | The recursive query terminates on a forest and gives exactly the page and everything below it. |
| `PageStore.ArchiveRows` | apps/api/internal/store/postgres/wiki.go:131-165 | The update marks or clears exactly the subtree, the same pages as the in-memory loop, and touches no row exactly when the page is missing. |
| `PageStore.Store.MarkPages` | apps/api/internal/store/memory/store.go:786-815 | The loops mark or clear exactly the page and everything below it. |
| `PageStore.Store.ArchivePage` | apps/api/internal/store/memory/store.go:786-800 | Marks exactly the subtree; a missing page is an error. |
| `PageStore.Store.UnarchivePage` | apps/api/internal/store/memory/store.go:802-815 | Clears exactly the subtree; a missing page is an error. |
| `PageStore.Store.NextPosition` | apps/api/internal/store/memory/store.go:762-767 | One more than the highest position among the siblings, or zero. |
| `PageStore.Store.CreatePage` | apps/api/internal/store/memory/store.go:753-784 | Adds a page after its siblings when the parent check passes. |
| `PageStore.Store.UpdatePage` | apps/api/internal/store/memory/store.go:863-892 | Applies an update under the version check and the parent check. |
| `PageStore.Store.ApplyCollabSnapshot` | apps/api/internal/store/memory/store.go:1050-1065 | Replaces the body and leaves the lock version alone. |
| `PageStore.Store.ListPages` | apps/api/internal/store/memory/store.go:838-851 | Every page of the workspace once. |
| `PageHistory.LogHoldsChanges` | apps/api/internal/store/memory/store.go:1419-1450 | The unbounded log holds exactly the submitted snapshots that differ from the one before. |
| `PageHistory.StoredIsWindow` | apps/api/internal/store/memory/store.go:1419-1450 | After any submissions the stored list is the last at most 100 entries of the unbounded log, which is numbered from 1. |
| `PageHistory.AppendKeepsEntries` | apps/api/internal/store/memory/store.go:1419-1450 | An append leaves the submitted snapshot newest and every retained entry as it was; only the oldest drops off, and only at the limit. |
| `PageModel.HistoryAfterRun` | apps/api/internal/store/memory/store.go:1419-1450 | After every run of store calls, of any kind and on any pages, each page's stored history is the last at most 100 entries of the log of all that was recorded for it. |
| `PageHistory.NewestRow` | apps/api/internal/store/postgres/wiki.go:669-673 | The highest-numbered row, if any. |
| `PageHistory.AppendRow` | apps/api/internal/store/postgres/wiki.go:657-699 | A missing page is an error; otherwise inserts the next number when the snapshot differs and deletes the numbers up to the cutoff. Says whether the rows changed. |
| `PageHistory.RowStepFollows` | apps/api/internal/store/postgres/wiki.go:657-699 | Deleting by number and slicing the tail keep the same entries. |
| `PageHistory.RowsAreWindow` | apps/api/internal/store/postgres/wiki.go:657-699 | After any submissions the rows are the last at most 100 entries of the same unbounded log. |
| `PageStore.Store.AppendPageVersionIfChanged` | apps/api/internal/store/memory/store.go:1419-1450 | In place: the list, the entry returned and the changed flag. |
| `PageStore.FirstNumberedIn` | apps/api/internal/store/memory/store.go:1464-1476 | With consecutive numbers, a version is found exactly when its number is retained. |
| `PageStore.Store.GetPageVersion` | apps/api/internal/store/memory/store.go:1464-1476 | The loop returns the first entry with that number, or not found. |
| `WikiModel.NewestIsLive` | apps/api/internal/service/workspace.go:708-730 | Over every run of requests one after the other, each page's newest history entry is its live title, body and status, and numbers are consecutive. |
| `WikiModel.UpdatePageKeepsInv` | apps/api/internal/service/workspace.go:816-845 | An update, accepted or refused, keeps forest and histories. |
| `WikiModel.ApplySnapshotKeepsInv` | apps/api/internal/service/workspace.go:1080-1103 | A collaboration snapshot keeps forest and histories. |
| `WikiModel.RetainedVersion` | apps/api/internal/service/sprints.go:125-130 | The versions that can be fetched are exactly those from the oldest retained number to the newest, and each comes back as stored. |
| `WikiModel.RestoreSucceedsIff` | apps/api/internal/service/sprints.go:150-170 | For a writer with the current lock version, restoring a retained version succeeds if and only if its title is not all white space; the page is then that snapshot with the title trimmed, and otherwise nothing changes. |
| `WikiModel.RestoreKeepsEntries` | apps/api/internal/service/sprints.go:150-170 | A successful restore appends at most one entry, renumbers and alters none, drops the oldest only at the limit, and touches no other page's history. |
| `WikiModel.UpdateGrowsHistory` | apps/api/internal/service/workspace.go:816-845 | A successful content update grows the history in the same way. |
| `WikiModel.BlankTitleCannotBeRestored` | apps/api/internal/service/workspace.go:708-730 | Taken alone, the creation method accepts a title of white space, and that first version can never be restored. |
| `WikiModel.TrimTwice` | apps/api/internal/service/workspace.go:824-830 | Trimming a trimmed title changes nothing. |
| `WikiModel.RestoreSucceedsAfterTrimmedRun` | apps/api/internal/web/server.go:750-769 | After any requests whose new pages arrive with trimmed titles, as the handler sends them, every retained version has a trimmed title that is not empty, and a writer who restores it with the current lock version succeeds and makes the page equal to it. |
| `WikiOutcomes.UpdateAcceptedIff` | apps/api/internal/service/workspace.go:816-845 | An update request is accepted exactly from an owner or member of the page's workspace, with a trimmed title of 1 to 160 bytes, a body of at most 100000 and a known status, at the current lock version and with a fitting parent; a stale version is refused with the stored page. |
| `WikiOutcomes.CreateAcceptedIff` | apps/api/internal/service/workspace.go:708-730 | A creation request is accepted exactly from an owner or member, with texts that fit and a fitting parent; the page is a draft unless told otherwise. |
| `WikiOutcomes.SnapshotAcceptedIff` | apps/api/internal/service/workspace.go:1080-1103 | A collaboration snapshot is taken exactly for a known room and a text of at most 100000 bytes; it replaces the body and not the lock version. |
| `WikiOutcomes.RestoreNeeds` | apps/api/internal/service/sprints.go:150-170 | A restore goes through only for an owner or member, only for a version that is kept, and only at the current lock version; a refused one changes nothing. |
| `WikiModel.TrimSpaceTakes` | apps/api/internal/service/workspace.go:816-845 | Trimming a title takes white space off both ends and nothing else. |
| `WikiThreads.StepKeepsInv` | apps/api/internal/service/workspace.go:708-845 | Every single store call of every wiki request, from any reachable mix of requests in flight, keeps pages, histories and what is still to be recorded in step. |
| `WikiThreads.EveryInterleaving` | apps/api/internal/service/workspace.go:837-842 | In every interleaving the history of a page is the window of the log of its records, the live page shows its last content write, the newest entry shows the write its last record carried, and the two agree if and only if those are the same write or have the same title, body and status. |
| `WikiThreads.SettledInOrderAgrees` | apps/api/internal/service/workspace.go:837-842 | Once no record of a page is outstanding, the newest entry is the live page, unless records overtook one another. |
| `WikiThreads.CrossedRecordsDisagree` | apps/api/internal/service/workspace.go:837-842 | From any reachable world, for any page and two different texts, two accepted updates can leave the first text newest and the second live. |
| `WikiThreads.CreateAlone` | apps/api/internal/service/workspace.go:708-730 | Carried through alone, a creation is the request as specified. |
| `WikiThreads.UpdateAlone` | apps/api/internal/service/workspace.go:816-845 | Carried through alone, an update is the request as specified. |
| `WikiThreads.SyncAlone` | apps/api/internal/service/workspace.go:1080-1103 | Carried through alone, a collaboration snapshot is the request as specified. |
| `WikiThreads.RestoreAlone` | apps/api/internal/service/sprints.go:150-170 | Carried through alone, a restore is the request as specified. |
| `WikiRuns.NoUpdateIsLost` | apps/api/internal/store/memory/store.go:863-892 | Along every interleaving of requests no two accepted updates of a page name the same lock version, and later ones name higher ones. |
| `WikiRuns.PageChangesAreEntitled` | apps/api/internal/service/workspace.go:708-867 | Along every interleaving each change of a page is the write of a thread that passed its checks before: by an owner or member of the page's workspace with texts that fit, or the text of the page's own room; an update names the version it replaces, a mark touches the archive time only, a snapshot the body only. |
| `WikiService.Wiki.CreatePage` | apps/api/internal/service/workspace.go:708-730 | Checks, store call and history record in order give the specified state and answer. |
| `WikiService.Wiki.UpdatePage` | apps/api/internal/service/workspace.go:816-845 | Checks, store call and history record in order give the specified state and answer. |
| `WikiService.Wiki.ApplyCollabSnapshot` | apps/api/internal/service/workspace.go:1080-1103 | Checks, store call and history record in order give the specified state and answer. |
| `WikiService.Wiki.RestorePageVersion` | apps/api/internal/service/sprints.go:150-170 | Fetches the version and ends in an update, with every refusal in its place. |
| `WikiService.Wiki.DiffPageVersions` | apps/api/internal/service/sprints.go:132-148 | Succeeds exactly for a readable page and two different retained positive numbers; the answer names page, numbers and both titles, and its lines are a shortest script from one body to the other, empty of changes exactly when the bodies are equal. |
| `WikiService.DiffPages` | apps/api/internal/domain/diff.go:63-73 | Puts together both versions' numbers and titles with a shortest script between their bodies. |
| `WikiService.Wiki.GetPage` | apps/api/internal/service/workspace.go:777-814 | Answers as lookup is specified; a guest only ever gets a page with status "published" that is not archived. |
| `WikiService.Wiki.SearchPages` | apps/api/internal/service/search.go:70-106 | The hits are exactly the matching pages that are not archived and that the role may read, each once; a guest's hits all have status "published". |
| `WikiService.Wiki.ReadPageTree` | apps/api/internal/service/workspace.go:732-751 | The tree of the live pages; for a guest, of those with all their ancestors of status "published". |
| `GuestView.GuestFilterIff` | apps/api/internal/domain/tree.go:39-70 | A page passes the guest filter exactly when its chain reaches the root and the page and every ancestor have status "published". |
| `GuestView.GuestReadsIff` | apps/api/internal/service/workspace.go:777-814 | In a forest a guest reads a page exactly when it is not archived and it and all its ancestors have status "published". |
| `GuestView.GuestHitsAreReadable` | apps/api/internal/service/search.go:70-106 | For a guest, a matching page is a search hit if and only if page lookup returns it, and that is if and only if it is not archived and it and all its ancestors have status "published". |
| `GuestView.GuestTreeIff` | apps/api/internal/service/workspace.go:732-751 | A guest's tree holds each page once, exactly those that are, with all their ancestors, not archived and of status "published", and lookup returns every one of them. |
| `GuestView.LookupIff` | apps/api/internal/service/workspace.go:777-814 | Lookup answers with the page exactly for someone in its workspace who is no guest, or for a guest if the page is not archived and it and all its ancestors have status "published". |
| `GuestView.MemberHitsAre` | apps/api/internal/service/search.go:70-106 | For owners and members the hits are all matching pages of the workspace that are not archived, drafts included. |
| `MemberCalls.AcceptInvitationTx` | apps/api/internal/store/postgres/store.go:392-433 | The transaction succeeds exactly for a known invitation that is not revoked, before its expiry and below its use limit; a row goes in and one use is counted exactly for a newcomer, a refusal changes no row, and rows and answer are those of the in-memory call for every store the rows represent. |
| `MemberStore.Store.CreateWorkspace` | apps/api/internal/store/memory/store.go:99-120 | One more workspace, in which the founder is owner and nobody else is a member; no other membership changes. |
| `MemberStore.Store.AddMember` | apps/api/internal/store/memory/store.go:190-209 | Succeeds exactly for a known workspace and someone not in it; then that one entry gets the role and no other entry changes, otherwise nothing does. |
| `MemberStore.Store.UpdateMemberRole` | apps/api/internal/store/memory/store.go:211-225 | Succeeds exactly for a member; then that one entry gets the role and no other entry changes, otherwise nothing does. |
| `MemberStore.Store.RemoveMember` | apps/api/internal/store/memory/store.go:227-239 | Succeeds exactly for a member; then that one entry goes and no other changes, otherwise nothing does. |
| `MemberStore.Store.CreateInvitation` | apps/api/internal/store/memory/store.go:241-261 | Succeeds exactly for a known workspace; then that one invitation is filed and no other changes. |
| `MemberStore.Store.UpdateInvitationPolicy` | apps/api/internal/store/memory/store.go:290-306 | Succeeds exactly for an open invitation of the workspace; its use count, owner and times stay, and no other invitation changes. |
| `MemberStore.Store.RevokeInvitation` | apps/api/internal/store/memory/store.go:308-321 | Succeeds exactly for an invitation of the workspace; a second call keeps the first revocation and changes nothing. |
| `MemberStore.Store.AcceptInvitation` | apps/api/internal/store/memory/store.go:323-351 | Succeeds exactly for a known invitation of a known workspace that is not revoked, before its expiry and below its use limit; a newcomer gets its role and one use is counted, a member keeps theirs, and nothing else changes; a closed one is forbidden. |
| `Membership.StepKeepsInv` | apps/api/internal/service/workspace.go:85-520 | Every single store call of every request, from any reachable mix of requests in flight, keeps one owner per workspace and the invitation counts. |
| `Membership.EveryInterleaving` | apps/api/internal/service/workspace.go:137-520 | In every interleaving each workspace has exactly one owner, its founder, and each invitation's use count is the number of members who joined by it, at most its largest limit ever and so at most 100. |
| `Membership.StartInv` | apps/api/internal/store/memory/store.go:73-97 | An empty store with no requests meets the invariants that every interleaving, and every serial run, keeps. |
| `Membership.FounderIsForever` | apps/api/internal/service/workspace.go:164-256 | No later call changes who founded, and so owns, a workspace. |
| `Membership.RevokedIsFinal` | apps/api/internal/store/memory/store.go:290-351 | Once revoked, an invitation is never used, changed or reopened, by any request in flight or to come. |
| `Membership.AcceptChangesIff` | apps/api/internal/store/memory/store.go:323-351 | In any reachable world an accept changes the store if and only if the invitation is not revoked, not yet expired and below its use limit and the caller is no member; then exactly that membership and that use count change, otherwise nothing but the thread: a member's accept goes through unchanged, a closed invitation is not found. |
| `Membership.PolicyIsSound` | apps/api/internal/service/workspace.go:369-410 | A policy update over a sound invitation is refused, or keeps role and limit sound, covers the uses seen, changes only what was asked for, and expires within fourteen days if a lifetime was given. |
| `Membership.CallWithinLimitIff` | apps/api/internal/service/workspace.go:387-399 | One store call keeps every use count within its current limit if and only if it is not a policy write, to an open invitation of its workspace, of a limit below the uses there have been. |
| `Membership.StaysWithinLimitIff` | apps/api/internal/service/workspace.go:341-422 | Along every interleaving the use counts stay within their current limits at every point if and only if no such write happens on the way. |
| `Membership.SerialRunsStayWithinLimit` | apps/api/internal/service/workspace.go:387-399 | When requests run one after the other, no use count exceeds the invitation's current limit. |
| `Membership.RaceExceedsLimit` | apps/api/internal/service/workspace.go:341-422 | A concrete interleaving that leaves an invitation used twice with a limit of one. |
| `Membership.NextLowersRank` | apps/api/internal/service/workspace.go:137-520 | Every request ends after at most six store calls. |
| `MemberOutcomes.RemoveOutcome` | apps/api/internal/service/workspace.go:198-229 | Only an owner removes, only another member, and only that entry goes; every refusal has its error and changes nothing. |
| `MemberOutcomes.UpdateRoleOutcome` | apps/api/internal/service/workspace.go:164-196 | Only an owner changes a role, only a member's, only to member or guest, not the only owner's, and only that entry changes. |
| `MemberOutcomes.LeaveOutcome` | apps/api/internal/service/workspace.go:231-256 | Exactly a member who is not the only owner can leave, and only their own entry goes. |
| `MemberOutcomes.AddOutcome` | apps/api/internal/service/workspace.go:137-148 | Only an owner adds, never as owner, only someone who is no member; that one entry is new, as member unless told otherwise. |
| `MemberOutcomes.FoundingOutcome` | apps/api/internal/service/workspace.go:85-95 | A workspace needs a name; its founder owns it and is alone in it. |
| `MemberOutcomes.InviteOutcome` | apps/api/internal/service/workspace.go:275-312 | Only an owner invites, as member or guest, for at most 100 uses and 336 hours (1 use and 72 hours if none are given); exactly that invitation is filed. |
| `MemberOutcomes.ResendOutcome` | apps/api/internal/service/workspace.go:424-463 | Only an owner sends an invitation of the workspace again: one new invitation for the same role, address and use limit, lasting as many whole hours as the first, within 336. |
| `MemberOutcomes.RevokeOutcome` | apps/api/internal/service/workspace.go:321-339 | Only an owner revokes, only an invitation of the workspace; its first revocation stays and nothing else changes. |
| `MemberOutcomes.PolicyOutcome` | apps/api/internal/service/workspace.go:341-422 | Only an owner changes a policy, only of an open invitation of the workspace, within 100 uses and 336 hours and covering the uses so far; only what was asked for changes. |
| `MemberOutcomes.ClosedIsRefused` | apps/api/internal/store/memory/store.go:323-351 | An invitation that is revoked, has reached its expiry or has no use left is refused, and nothing changes. |
| `MemberOutcomes.AcceptOutcome` | apps/api/internal/service/workspace.go:485-520 | An accept goes through exactly with a known invitation that is for anyone or for the caller's address, not revoked, not yet expired and below its use limit; a newcomer gets its role and one use is counted, a member changes nothing. |
| `MemberRuns.MemberChangesAreEntitled` | apps/api/internal/service/workspace.go:85-520 | Along every interleaving each change of a membership has a request behind it: a founding; an addition, role change or removal whose actor owned the workspace when it was checked; the member's own leave; or the newcomer's own accept, by an invitation that was for their address when looked up and is not revoked, expired or used up when used. |
| `MemberRuns.InvitationChangesAreEntitled` | apps/api/internal/service/workspace.go:275-520 | Along every interleaving each change of an invitation has a request behind it: filed, revoked or given a new policy by someone who owned its workspace when checked, and only while open; or one more use, while open, by someone who joins by it. |
| `MemberRuns.JoinsAreInTime` | apps/api/internal/store/memory/store.go:323-351 | Along every interleaving each join is by an invitation that is then not revoked, before the expiry then in force and below the limit then in force. |
| `MemberRuns.OwnersStay` | apps/api/internal/service/workspace.go:164-256 | Whoever owned the workspace when a request was checked still owns it when the change is written. |
| `MemberRuns.EveryThreadIsEntitled` | apps/api/internal/service/workspace.go:66-75 | Every request on its way has passed the role check of the request it began as, at an earlier event of its own. |
| `MemberService.Service.CreateWorkspace` | apps/api/internal/service/workspace.go:85-95 | Carried through alone, the request is the run of its machine. |
| `MemberService.Service.AddMember` | apps/api/internal/service/workspace.go:137-148 | Carried through alone, the request is the run of its machine; an empty role means member. |
| `MemberService.Service.CountOwners` | apps/api/internal/service/workspace.go:150-162 | The loop counts the owners among the members. |
| `MemberService.Service.MayChange` | apps/api/internal/service/workspace.go:174-186 | The guard of role change, removal and leave: refuses for a missing target and for the last owner. |
| `MemberService.Service.UpdateMemberRole` | apps/api/internal/service/workspace.go:164-196 | Carried through alone, the request is the run of its machine. |
| `MemberService.Service.RemoveMember` | apps/api/internal/service/workspace.go:198-229 | Carried through alone, the request is the run of its machine. |
| `MemberService.Service.LeaveWorkspace` | apps/api/internal/service/workspace.go:231-256 | Carried through alone, the request is the run of its machine. |
| `MemberService.Service.CreateInvitation` | apps/api/internal/service/workspace.go:275-312 | Carried through alone, the request is the run of its machine; the answer is the stored invitation. |
| `MemberService.Service.RevokeInvitation` | apps/api/internal/service/workspace.go:321-339 | Carried through alone, the request is the run of its machine; the answer is revoked. |
| `MemberService.Service.UpdateInvitationPolicy` | apps/api/internal/service/workspace.go:341-422 | Carried through alone, the request is the run of its machine; the answer is the stored invitation. |
| `MemberService.Service.ResendInvitation` | apps/api/internal/service/workspace.go:424-463 | Carried through alone, the request is the run of its machine, ending in a new invitation. |
| `MemberService.Service.AcceptInvitation` | apps/api/internal/service/workspace.go:485-520 | Carried through alone, the request is the run of its machine; the store changes exactly when the caller joined. |

## Left out

- Ids, tokens and their hashes: drawn ids are parameters that are new when used; a token is the id of the invitation it opens.
- E-mail normalisation and display names: addresses are taken as already normalised, and names are not kept.
- Audit events, chat, files, documents, tickets and their stores: easy members or input/output.
- Tenant scoping and the in-memory lock: every store call is one atomic step, and nothing is claimed about the lock.
- SQL execution, row locks, row-level security and failing transactions: only the row effects of the named transactions.
- Concurrent relational moves: a move's transaction is one step; positions are rewritten without locking the column.
- The relational store's column operations and its page rows outside archiving, parent check and history.
- The relational parent check has the same walk as the in-memory one and is not repeated.
- Board, column and card service methods: role checks in front of the store calls that are modelled.
- The list orders returned by `ListSprints`, `ListInvitations`, `ListBoards` and `GetBoardDetail`.
- Card assignee, labels and similar fields that no modelled operation reads.
- `ValidCollabRoom` and the text match of page search are parameters; search snippets are not built.
- A history entry's title, body and status are one `Snapshot` value.
- The role check in front of the burndown, and `ListPageVersions`.
- Conflict-free merging inside Yjs, and CodeMirror's internals: only the plain-text meaning of inserts, deletes and change sets.
- `CollabIME.RunStaysInSync`: texts are code units without carriage returns, each update carries one transaction, and the end of a composition is one step (composing off, then flush).
- `PageTree.SortKids`: stands for the library sort; pages equal in position and creation time may come out in any order, as an unstable sort allows.
- The database's collation: ids of equal position are ordered by code units.
- `Burndown.BurndownFor`: a day stays an instant at UTC midnight; its text form is not produced.
- `PageStore.Store.ApplyCollabSnapshot`: page rooms only, because document bodies are not modelled.
- `WikiService.Wiki.ApplyCollabSnapshot`: page rooms only, because document bodies are not modelled.
- `WikiService.Wiki.SearchPages`: answers with page ids; labels and snippets of a hit are not built, and the text match is a parameter.
- `MemberService.Service.CreateWorkspace`: the default chat channel is not created.
- `MemberService.Service.UpdateMemberRole`: without the audit event.
- `MemberService.Service.RemoveMember`: without the audit event.
- `MemberService.Service.LeaveWorkspace`: without the audit event.
- `MemberService.Service.CreateInvitation`: without the token and the audit event.
- `MemberService.Service.ResendInvitation`: without the token and the audit event.
- `MemberService.Service.RevokeInvitation`: without the audit event.
- `MemberService.Service.UpdateInvitationPolicy`: without the audit event.
- `MemberService.Service.AcceptInvitation`: answers with the membership; the workspace record and the audit event are left out.
- `WikiThreads.EveryInterleaving`: a content write and its checks are separate calls; page reads of other requests are not threads, as they change nothing.
