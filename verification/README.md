# Models of the document engine, the accounts and the ports of JXPanel

The panel's web editor is CodeMirror 4.3.0, kept in `ui/cm/codemirror.js`; the panel's own
state is the account tables of `app/install/database.js` and the port assignment of
`app/hosting_tools.js`.  This project models the parts of them that keep one thing in two
forms, or that rely on a structure nothing in the code states, and proves that the forms
agree and the structure holds.

**The document engine.**

- `Text`, `Changes`, `Positions`: a text is a list of lines; texts are glued together, a
  position is a place where a text comes apart.  All facts about positions, changes and
  offsets are stated through this.
- `Selections`, `Replacing`: normalizing selections; replacing all ranges at once.
- `History`, `HistoryProofs`, `HistoryRuns`, `Document`: the undo history.  `History` says
  what each operation does as a function on states, `HistoryProofs` and `HistoryRuns` prove
  what that promises over whole runs, and the class `Doc` in `Document` does it in place, step
  by step as the program does, and is proved equal to the functions.
- `LineGraph`, `LineRemoval`, `LineTree`, `DocLines`: the lines in a tree of chunks with parent
  links, cached sizes and cached heights.  `LineTree` holds the chunk objects and their methods;
  each method is given, as ghost, the graph the heap equals and says which graph it equals
  afterwards, and `LineGraph` and `LineRemoval` prove what the changes of the graph mean for the
  sequence of lines.  `LineDoc` in `DocLines` is the document: a ghost flat sequence of lines
  which every method is stated in.
- `Updates`: performing a change on the line objects.  `View`: the window of drawn lines.
- `Highlight`, `Columns`, `Bidi`: style segments and overlays, tab columns, and the sections
  of a line with text in both directions.

**The accounts.**  `Accounts` says what it means that the tables form a forest and defines who
is below a plan; `AccountSteps`, `AccountQuotas`, `AccountDeletion` and `AccountLimits` prove what
each operation keeps; `AccountRuns` puts this together for whole runs; `AccountEffects` says when each
operation is carried out and what it changes; `AccountExamples` has tables in which an operation does
not do what one would expect; the class in `Database` holds the tables and the loops of the program
and is proved equal to the steps.

**The ports.**  `Ports` has the blocks, the search and the checks, `Hosting` the domain objects.

Where the code does not do what one would expect, the model follows the code, and a lemma says
exactly when it does:

- A redo in an operation that has recorded an edit or a selection already loses the edit that was
  redone, and an undo of the selection in such an operation can lose an edit at once
  (`HistoryProofs.FromHistoryKeeps` for the exact condition, `HistoryRuns.RedoLosesEdit` and
  `HistoryRuns.SelectionUndoLosesEdit` for what is lost).
- A user named `%$$SUPER_USER$$%` makes the tables stop being a forest
  (`AccountSteps.UserKeepsForest`).
- A plan with users 100000 or more levels below it leaves users without a plan when it, or the user
  who owns it, is deleted (`AccountDeletion.DeepDeletionBreaks`, `AccountDeletion.DeepUserDeletionBreaks`;
  `AccountExamples.DeletingFromChain` has such tables).
- A domain whose owner is changed to a user who does not exist is left with nobody
  (`AccountRuns.GiveDomainLinks`).
- The check for room stops at a plan with an empty name, or one owned by a user with an empty name,
  so that a full plan further up can be hidden from it (`AccountRuns.LooksAtAll`, `AccountRuns.RoomIs`,
  `AccountExamples.EmptyNameHidesFullPlan`).
- The room a suspended plan leaves in the plans above it can be given away, so that they are over their limits once it
  is un-suspended (`AccountQuotas.ResumeKeepsQuotas`, `AccountExamples.UnSuspendingBreaksQuota`).
- The unlimited plan below a bounded one is not bounded (`AccountLimits.ChildWithinParent`,
  `AccountExamples.UnlimitedExceedsParent`).
- Handing out no ports per domain while some are in use forgets them, and two domains can get the same
  one (`Ports.StepKeepsDistinct`, `Ports.PortIsShared`).
- A mode whose style holds an overlay mark, or forms one with the space behind it, loses part of it
  when the token type is looked up (`Highlight.TokenTypeIsBase`).

## Model

| member | source | states |
|---|---|---|
| Text.CatBetween | ui/cm/codemirror.js:6563-6573 | two positions cut a text into what is before, between and after them, which put together give the text again; walking over the middle leads from the first position to the second |
| Text.OffsetBounds | ui/cm/codemirror.js:6437-6455 | the offset of a position splits the newline-joined text where the position splits the lines |
| Changes.ApplyIsSplice | ui/cm/codemirror.js:5972-6015 | replacing a span is one splice of the newline-joined text at the offsets of its ends |
| Changes.HistoryChangeInverts | ui/cm/codemirror.js:6672-6677 | the change kept in the history is valid in the new text, restores the old text exactly, and the change kept for it in turn is the original one |
| Changes.ExtendedChangeRestores | ui/cm/codemirror.js:6717-6721 | for an insertion right behind the last kept change it is enough to move that change's end: it still takes the text back to where it was before both |
| Changes.AdjustIsOffsetMap | ui/cm/codemirror.js:3257-3264 | adjusting a position is the offset map of the splice: kept before the change, sent to the change's end inside it, shifted behind it; text before or behind the position stays the same |
| Changes.AdjustIsMonotone | ui/cm/codemirror.js:3257-3264 | adjusting keeps the order of positions |
| Changes.ShiftReplaysWalk | ui/cm/codemirror.js:3249-3281 | both ways of shifting a position replay, from the new place, the walk that led to it from the old one |
| Changes.OffsetOrder | ui/cm/codemirror.js:6446-6455 | offsets order positions exactly as cmp does, so different positions have different offsets |
| Positions.ClipPos | ui/cm/codemirror.js:1054-1065 | the result exists in the text and is the nearest position of its line; positions that exist are left alone, lines outside the text give its start or end, a missing column the end of the line |
| Positions.ClipIsMonotone | ui/cm/codemirror.js:1054-1065 | clipping keeps the order of positions |
| Positions.OffsetIs | ui/cm/codemirror.js:6446-6455 | an offset is the lengths of the earlier lines, each with its line break, and the column |
| Positions.IndexFromPos | ui/cm/codemirror.js:6446-6455 | computes the offset of the clipped position in the joined text |
| Positions.PosFromIndex | ui/cm/codemirror.js:6437-6445 | finds the existing position whose offset is the index, clamped to the text |
| Positions.RoundTrip | ui/cm/codemirror.js:6437-6455 | going from a position to its index and back clips it, going from an index to its position and back clamps it: the two invert each other |
| Selections.NormalizeSelection | ui/cm/codemirror.js:1031-1045 | the ranges come out sorted with a gap between neighbours, cover exactly the positions the given ones cover and end where they end; each given range lies inside one of them, and the primary one holds the original primary range; a range points the way the first given one inside it that is not empty does; and if no two given ranges touch, the result has exactly the given ranges with the same primary one |
| Selections.ApartStays | ui/cm/codemirror.js:1031-1045 | ranges that are sorted and apart are left as they are |
| Selections.InsideIsUnique | ui/cm/codemirror.js:1031-1045 | between ranges with gaps, the range that holds a given one is the only one |
| Selections.JoinAtKeepsCover | ui/cm/codemirror.js:1037-1042 | joining two touching neighbours covers the same positions, and every range stays inside some range |
| Selections.PermutationKeepsCover | ui/cm/codemirror.js:1033 | sorting the ranges changes nothing of what they cover |
| Document.ComputeSelAfterChange | ui/cm/codemirror.js:3266-3274 | the selection after a change is the adjusted ranges, normalized, with all that this promises |
| Document.SelAfterIsIn | ui/cm/codemirror.js:3266-3274 | a selection in the text, sorted with gaps, becomes one in the text after the change |
| Document.ChangeKeepsDirections | ui/cm/codemirror.js:3257-3274 | a change keeps the direction of selections: one that is left, not empty, starts where the change takes the start of one of the same direction |
| Replacing.FromLast | ui/cm/codemirror.js:6321-6322 | changes that follow each other in the text can be applied from the last to the first, each still valid when its turn comes, and give the text before the first with all parts replaced |
| Replacing.FromLastIsSimultaneous | ui/cm/codemirror.js:6314-6325 | applying the sorted, disjoint changes from last to first is the same as replacing all parts simultaneously |
| Replacing.PassStep | ui/cm/codemirror.js:3288-3294 | one step of the forward pass shifts a change's start and end to the span of its text in the final document |
| Replacing.ComputeReplacedSel | ui/cm/codemirror.js:3285-3302 | the loop computes the ranges of the specification from the changes as made on the old text |
| Replacing.ReplacedRangesArePlaced | ui/cm/codemirror.js:3285-3302 | with the hint around, range i spans exactly the final place of text i and points the way its old range did; without it, it is empty in front of that text |
| Replacing.EndsAreReplaced | ui/cm/codemirror.js:3257-3294 | the places where the texts end, found by adjusting from the last change to the first, are those found by the forward pass from the first to the last |
| Document.CursorLeft | ui/cm/codemirror.js:6321-6322 | when the ranges are replaced from the last to the first, each step leaves a cursor behind its text, moves those behind later texts and leaves earlier ranges alone |
| Document.ReplacedIsIn | ui/cm/codemirror.js:3276-3302 | the selection around the new texts, or in front of them, lies in the new text, sorted with gaps |
| Document.Doc.ReplaceSelections | ui/cm/codemirror.js:6314-6325 | from every good state the text becomes that of the simultaneous replacement; the selection spans the new texts, or is in front of them, or, collapsed to the end, has a cursor behind each of them; and the whole adds at most one version to undo to when it is one operation without an undo depth |
| HistoryProofs.EditLiesOnSelection | ui/cm/codemirror.js:6706-6746 | in a good stack every edit lies directly above a selection |
| HistoryProofs.TrimKeeps | ui/cm/codemirror.js:6734-6737 | trimming to the undo depth keeps a good stack: it forgets only the oldest versions, never parts an edit from the selection below it, fits the depth afterwards, and changes nothing if it did before |
| HistoryProofs.TrimKeepsMost | ui/cm/codemirror.js:6734-6737 | trimming keeps as many of the latest events as the depth allows, but for an edit that would be left without the selection below it |
| HistoryProofs.MergeChangeReverts | ui/cm/codemirror.js:6716-6725 | an edit merged into the last event, with the shortcut or without, leaves an event that takes the new text back to where the event led before; typing on adds no change to it |
| HistoryProofs.MergingIsJoining | ui/cm/codemirror.js:6694-6714 | an edit joins the last event exactly when the operation recorded something already and there is an edit, or when it comes with the origin of the last edit, this begins with '*', or with '+' in an editor and the edits are close in time, and at most one selection was recorded since |
| HistoryProofs.AntiChangesRestore | ui/cm/codemirror.js:3400-3416 | reverting an event and then reverting the changes kept meanwhile gives back the text |
| HistoryProofs.PopToKeeps | ui/cm/codemirror.js:3385-3396 | moving selections from one stack to the other until the event that counts keeps both stacks good and leads to the same versions |
| HistoryProofs.MakeChangeKeeps | ui/cm/codemirror.js:3351-3355 | an edit keeps both stacks good for the new text, takes the next unused generation and empties the redo side; if it joins the last event (as said above) the versions to undo to stay as they are, otherwise the one just left is added, with its text, generation and selection, and at most the oldest are forgotten, none without an undo depth |
| HistoryProofs.SetSelectionKeeps | ui/cm/codemirror.js:6761-6781 | recording a selection, overwriting or not, changes no version to undo or redo to |
| HistoryProofs.SetSelectionReplaceHistoryKeeps | ui/cm/codemirror.js:1144-1152 | replacing the selection on top of the history changes no version to undo or redo to |
| HistoryProofs.SelectionIsRecorded | ui/cm/codemirror.js:6761-6781 | a new selection takes the place of the last one exactly when the operation recorded something already, or its origin is that of the last one and it is similar; setting it takes back the redoing of selections unless that is not wanted |
| HistoryProofs.ReplacedSelectionIsGone | ui/cm/codemirror.js:1144-1152 | a selection replaced without regard to the history is not there to undo to, and nothing else changes |
| HistoryProofs.SelectionOrStep | ui/cm/codemirror.js:3369-3396 | an undo or redo that may stop at a selection goes to the nearest selection other than the current one if no edit lies in between; otherwise, if there is such a selection further down, it takes a step; and otherwise it does nothing |
| HistoryProofs.FromHistoryKeeps | ui/cm/codemirror.js:3369-3431 | whatever its operation recorded before, an undo or redo finds a revertible event with a selection below it, and it steps exactly one version whenever there is one: text, generation and selection become those of that version, and the one left, with the first selection it had, is what the opposite step leads to; with selections allowed it steps one version or none; this is so exactly unless it spoils the history, for which the exact condition is given |
| HistoryProofs.SpoiledSelection | ui/cm/codemirror.js:3388-3393 | an undo that stops at a selection in an operation that recorded something, and leaves no selection on top, keeps the text but loses the edit there for good, or empties the stack |
| HistoryRuns.Run | ui/cm/codemirror.js:3369-3431 | over every run of edits, selections, undos, redos, clean marks and depth changes, sharing operations in any way in which no undo or redo spoils the history, both stacks stay good for the current text, each selection kept lies in the version of the text it belongs to, and the current one in the current text |
| HistoryRuns.StepMoves | ui/cm/codemirror.js:3369-3431 | an undo or redo moves to the nearest version on its side, with the selection that one had, or does nothing when there is none |
| HistoryRuns.UndoThenRedo | ui/cm/codemirror.js:6326-6327 | k undos reach exactly the k-th version back, with its text, generation and selection, and k redos after them give back the same text and generation, the first selection the version had, and all versions on both sides with theirs |
| HistoryRuns.ThereAndBack | ui/cm/codemirror.js:3407-3418 | a step in either direction and the step back |
| HistoryRuns.EditUndoneAndRedone | ui/cm/codemirror.js:3398-3418 | undoing an edit brings back the version it was made in, with the selection pending then, or, if it joined the last event, the one that event was made in; redoing it brings back the text and the selection right after it |
| HistoryRuns.NextEditJoins | ui/cm/codemirror.js:6711-6746 | after an edit the next one joins it in the same operation, and in a later one exactly if it has the same origin, and this begins with '*', or with '+' and they are close in time |
| HistoryRuns.SelectionSeparates | ui/cm/codemirror.js:6711-6772 | setting another selection in between separates edits, unless it takes the place of the last selection |
| HistoryRuns.HistorySeparates | ui/cm/codemirror.js:3383 | after an undo or redo that did something, or after the clean mark, the next edit is an event of its own |
| HistoryRuns.NextSelectionReplaces | ui/cm/codemirror.js:6768-6779 | a selection with the origin of the last one, and similar, takes its place |
| HistoryRuns.SelectionAfterEdit | ui/cm/codemirror.js:6743-6772 | the first selection after an edit takes the place of the one the edit left exactly in the same operation, or with the edit's origin if it is similar |
| HistoryRuns.SelectionThereAndBack | ui/cm/codemirror.js:3385-3396 | undoing the selection and redoing it, or the other way round, goes to the nearest other selection and comes back, and changes no version |
| HistoryRuns.SelectionStaysIn | ui/cm/codemirror.js:3408-3418 | over all runs from a new document, undos and redos included, the selection lies in the text |
| HistoryRuns.RedoLosesEdit | ui/cm/codemirror.js:6768-6772 | a redo that does an edit again spoils the history exactly when its operation has recorded an edit or a selection already: exactly then the next selection overwrites the edit just redone |
| HistoryRuns.SelectionUndoLosesEdit | ui/cm/codemirror.js:3388-3393 | a run after which an undo of the selection, in the operation that set the cursor, loses the only edit while the text stays |
| HistoryRuns.SharedRedoSpoils | ui/cm/codemirror.js:2027-2034 | a run after which there is an edit to redo, and a redo in the same operation spoils the history |
| HistoryRuns.RunLearns | ui/cm/codemirror.js:6740 | along every run each generation in reach stands for one text, and none is given out twice |
| HistoryRuns.GenerationDeterminesText | ui/cm/codemirror.js:3402-3403 | over all runs, equal generation numbers mean equal texts |
| HistoryRuns.CleanMeansUnchanged | ui/cm/codemirror.js:6342-6352 | a document is clean when it is marked so, and from then on exactly when it is at the version that was marked; it has the text it had then |
| Document.Doc.AddChangeToHistory | ui/cm/codemirror.js:6706-6746 | the new stacks, generations and merge marks are those of the recording specification, and the edit joins the last event, or adds the version before it, exactly as MergingIsJoining says |
| Document.Doc.MakeChange | ui/cm/codemirror.js:3351-3355 | text, selection and history become those of the specification, with the selection computed from the change; the invariant holds again, and the edit is recorded as MakeChangeKeeps says |
| Document.Doc.SetSelection | ui/cm/codemirror.js:6761-6781 | the history becomes that of the specification; in a good history no version is gained or lost |
| Document.Doc.SetSelectionReplaceHistory | ui/cm/codemirror.js:1144-1152 | the history becomes that of the specification; no version is gained or lost |
| Document.TrimToDepth | ui/cm/codemirror.js:6734-6737 | the loop of shifts computes the trimmed stack, and with an edit on top never looks at an event that is not there |
| Document.FindUsable | ui/cm/codemirror.js:3377-3382 | finds out whether some event counts |
| Document.PopEvents | ui/cm/codemirror.js:3385-3396 | the loop of pops moves the selections as specified |
| Document.Doc.RevertChanges | ui/cm/codemirror.js:3407-3418 | applies the changes of an event from the last to the first and keeps the reverse of each |
| Document.Doc.MakeChangeFromHistory | ui/cm/codemirror.js:3369-3431 | in every operation the whole state becomes that of the specification, and it is good and at the right version, with that version's selection, exactly when the step does not spoil the history |
| Document.Doc.MarkClean | ui/cm/codemirror.js:6342-6349 | remembers the generation and makes the next edit start an event of its own |
| LineTree.Chunk.Leaf | ui/cm/codemirror.js:6030-6038 | a new leaf is the parent of its lines and as high as they are together |
| LineTree.Chunk.Branch | ui/cm/codemirror.js:6070-6082 | a new branch is the parent of its children and counts the lines and heights below them |
| LineTree.Chunk.LeafInsert | ui/cm/codemirror.js:6058-6062 | the lines go in at their place, with their parent links, and the leaf's height counts them |
| LineTree.Chunk.SpillLines | ui/cm/codemirror.js:6118-6125 | a leaf that is too long is cut down to at most 50 lines, the others going to new leaves behind it, with all sizes, heights and parent links exact and the document's lines unchanged |
| LineTree.Chunk.SplitOff | ui/cm/codemirror.js:6138-6151 | the last five children of a branch move to a new sibling behind it in its parent; sizes, heights and parent links of all chunks are exact again |
| LineTree.Chunk.SplitOffRoot | ui/cm/codemirror.js:6138-6151 | the root keeps its identity and becomes the parent of a copy of itself and the sibling; every link and count is exact again |
| LineGraph.SplitBranchWF | ui/cm/codemirror.js:6138-6149 | splitting a branch keeps the tree well-formed and its lines in order |
| LineGraph.SplitRootWF | ui/cm/codemirror.js:6140-6145 | growing the root by a level keeps the tree well-formed and its lines in order |
| LineGraph.SplitLeafWF | ui/cm/codemirror.js:6119-6125 | splitting a leaf keeps the tree well-formed and its lines in order |
| LineTree.Chunk.MaybeSpill | ui/cm/codemirror.js:6134-6154 | spilling upwards ends, also when the root grows, and leaves every branch with at most 10 children, every count exact and the lines unchanged |
| LineTree.Chunk.BranchInsert | ui/cm/codemirror.js:6111-6132 | below a branch the lines are inserted at their place in the document; every leaf has at most 50 lines and every branch at most 10 children afterwards, and every size, height and parent link is exact |
| LineGraph.PendingBelow | ui/cm/codemirror.js:6111-6117 | the child the loop stops at is the one in which the lines belong, at the reduced offset |
| LineTree.Chunk.LeafRemove | ui/cm/codemirror.js:6043-6052 | the lines are taken out, lose their parent, and no longer count in the leaf's height |
| LineTree.Chunk.Collapse | ui/cm/codemirror.js:6108-6110 | collects all lines below a chunk in order |
| LineTree.Chunk.CollapseHere | ui/cm/codemirror.js:6100-6106 | all children give way to one new leaf with their lines, which is their parent then |
| LineTree.Chunk.CutChildren | ui/cm/codemirror.js:6085-6098 | the loop takes out exactly the wanted lines and drops emptied children, so that none is left empty |
| LineRemoval.RemovedCollapsed | ui/cm/codemirror.js:6101-6106 | collapsing a small branch does not change which lines are left, nor any node outside it |
| LineTree.Chunk.RemoveInner | ui/cm/codemirror.js:6085-6107 | exactly n lines at the place are gone from the chunk, all chunks below it are exact, those elsewhere untouched, and the lines taken out have no parent; a branch left with fewer than 25 lines has a single leaf |
| DocLines.LineDoc.constructor | ui/cm/codemirror.js:6169-6173 | a document starts as a root over one leaf with one line |
| DocLines.LineDoc.Insert | ui/cm/codemirror.js:6202-6206 | the flattened lines become the old ones with the new ones inserted; the tree's invariant, bounds included, holds again |
| DocLines.LineDoc.Remove | ui/cm/codemirror.js:6207 | the flattened lines become the old ones without the slice; the invariant holds again and removed lines have no parent; a small document has a single leaf again |
| DocLines.LineDoc.GetLine | ui/cm/codemirror.js:6548-6559 | gives line n of the sequence, and fails exactly for numbers outside it |
| DocLines.LineDoc.LineNo | ui/cm/codemirror.js:6590-6600 | gives the place of a line in the sequence, so it inverts getLine, and nothing for a line that was removed |
| DocLines.LineDoc.HeightAtLine | ui/cm/codemirror.js:6625-6642 | is the sum of the heights of the earlier lines |
| DocLines.LineDoc.LineAtHeight | ui/cm/codemirror.js:6604-6621 | is the least line whose cumulative height exceeds the position, or the number of lines |
| DocLines.LineDoc.AtHeightUnique | ui/cm/codemirror.js:6604-6621 | only one line is at a height |
| DocLines.LineDoc.HeightAboveFindsLine | ui/cm/codemirror.js:6604-6642 | the height above a line that has some height leads back to that line |
| DocLines.LineDoc.UpdateLineHeight | ui/cm/codemirror.js:6583-6586 | the line gets the height and every chunk above it changes by as much, so that all heights are exact again; no line moves |
| Updates.UpdateLine | ui/cm/codemirror.js:5590-5600 | the line has the new text and its estimated height, all heights are exact, and no line moves |
| Updates.WholeLines | ui/cm/codemirror.js:5984-5991 | replacing whole lines by whole lines inserts the new lines for the old ones, line by line |
| Updates.OneText | ui/cm/codemirror.js:5993-6004 | an edit that puts one text between two positions joins the lines' ends around it |
| Updates.ManyInOneLine | ui/cm/codemirror.js:5995-6001 | an edit within a line that puts several texts splits that line |
| Updates.ManyOverLines | ui/cm/codemirror.js:6005-6012 | an edit over several lines that puts several texts edits the first and last line and replaces those between |
| Updates.UpdateDoc | ui/cm/codemirror.js:5972-6015 | in all branches the texts of the lines become those of the change applied to the old texts, the lines outside the change stay the same objects, the lines between are new, and a line whose text was touched has its estimated height |
| View.BuildViewArray | ui/cm/codemirror.js:2054-2062 | one undrawn entry for each line of the range, in order |
| View.Display.FindViewIndex | ui/cm/codemirror.js:2157-2166 | gives the entry of a line, and nothing for a line out of view |
| View.Display.RegChange | ui/cm/codemirror.js:2070-2131 | in all six overlap cases the view is a window on the new lines; no line outside the change loses its entry or gets another one; lines inside it are in view only if the view goes beyond them on both sides, and are new and undrawn |
| View.Display.RegLineChange | ui/cm/codemirror.js:2135-2147 | the entry of the line, if it is drawn, is marked once more unless it was marked so already; no other entry changes |
| View.Display.ResetView | ui/cm/codemirror.js:2149-2153 | the view is empty |
| View.Display.AdjustView | ui/cm/codemirror.js:2194-2211 | the view is a window on exactly the wanted range; lines that were in view keep their entries, the others are undrawn |
| View.Display.PatchDisplay | ui/cm/codemirror.js:744-785 | afterwards every entry shows the text of its line and nothing is marked |
| View.Display.UpdateLineForChanges | ui/cm/codemirror.js:789-798 | draws the text again exactly if a text change is marked, and unmarks everything |
| View.Display.Show | ui/cm/codemirror.js:632-657 | adjusting and patching leave on display exactly the texts of the wanted lines |
| View.Display.MakeChangeInEditor | ui/cm/codemirror.js:3484-3525 | after an edit of the lines the registered view is a window on the new lines, nothing drawn is out of date without being marked, and no line outside the edit loses its entry |
| View.ApplyOutside | ui/cm/codemirror.js:3520-3525 | outside the lines it touches a change moves lines by the number it adds, and does nothing else |
| Highlight.RunMode | ui/cm/codemirror.js:5637-5668 | the segments have strictly increasing ends that cover the line, and give each character the style of its token; they end where tokens begin or where the rest of the line gets too long; flattened, neighbours differ in style as far as the line is highlighted, otherwise each token ends one |
| Highlight.StyleOfToken | ui/cm/codemirror.js:5647-5661 | every character is in exactly one token and has its style, unless that begins behind the longest length |
| Highlight.SplitAt | ui/cm/codemirror.js:5687-5695 | segments are split in place so that one ends where the span does, with every character keeping its style |
| Highlight.ApplyOverlay | ui/cm/codemirror.js:5685-5706 | merging an overlay keeps the segments covering and gives each character its style merged with the overlay's |
| Highlight.HighlightLine | ui/cm/codemirror.js:5674-5710 | the final style of every character is the base style with all overlays merged in, in order, an opaque one replacing what was there |
| Highlight.FindSegment | ui/cm/codemirror.js:3973-3978 | bisection ends and finds the one segment that holds the character in front of the position |
| Highlight.GetTokenTypeAt | ui/cm/codemirror.js:3968-3982 | the type found is the style in front of the position up to its first overlay mark |
| Highlight.TokenTypeIsBase | ui/cm/codemirror.js:3979-3981 | where overlays give a style, the token type is none if the mode gave none or an opaque overlay replaced it, and otherwise the mode's own exactly when the mode's style does not hold or form an overlay mark |
| Highlight.StyleIsMerged | ui/cm/codemirror.js:5684-5707 | at each character the style of a line is that of its mode with the overlays merged in, in order |
| Columns.CountColumn | ui/cm/codemirror.js:7040-7053 | the column at the end of the stretch, walking character by character with tabs to the next stop, from a given start column; without an end, where the leading white space ends; to an end further back, single columns backwards |
| Columns.TabReachesNextStop | ui/cm/codemirror.js:7040-7053 | behind a tab is the least column further on that is a multiple of the tab size |
| Columns.ColumnSplits | ui/cm/codemirror.js:4876-4882 | counting on from a column that was kept gives the same as counting from the beginning |
| Columns.FindColumn | ui/cm/codemirror.js:7057-7069 | gives the least offset whose column reaches the goal, or the length; a negative goal, which no offset has, is given back |
| Columns.ColumnFindsOffset | ui/cm/codemirror.js:7055-7069 | the column of an offset is reached there first, so finding it gives the offset back |
| Columns.ReachedOnce | ui/cm/codemirror.js:7057-7069 | only one offset is the least to reach a column |
| Bidi.BuildOrder | ui/cm/codemirror.js:7597-7617 | the loop ends and builds the sections in visual order, with those of a right-to-left run inserted in reverse |
| Bidi.SectionsPartition | ui/cm/codemirror.js:7597-7617 | every character of the line is in exactly one section |
| Bidi.SectionsFit | ui/cm/codemirror.js:7597-7617 | no section is empty, and level 0, 1 and 2 hold only what counts as left, what is neither left nor a number, and numbers |
| Bidi.RunDescends | ui/cm/codemirror.js:7601-7615 | within a right-to-left run what comes later in the text comes earlier in the order |
| Bidi.SectionsInOrder | ui/cm/codemirror.js:7597-7617 | the sections come in visual order: those of one right-to-left run from its end to its beginning, all others as in the text |
| Bidi.SectionsAreMaximal | ui/cm/codemirror.js:7597-7617 | where a section ends the next character is not of its kind |
| Accounts.SuperIsNoUser | app/install/database.js:403 | in tables that form a forest no user has the name that stands for no owner |
| Accounts.UnderOnePlan | app/install/database.js:831-844 | a user is below one plan of each depth: there is one way up |
| Accounts.InPlan | app/install/database.js:473-496 | the deep traversal of a plan lists exactly the users below it down to the given level |
| Accounts.InPlanList | app/install/database.js:498-510 | the traversal of a user's plans lists exactly the users below them down to the given level |
| Accounts.ListsAll | app/install/database.js:473-496 | deep enough it lists every user below the plan, and nobody twice |
| Accounts.TotalsAreCounts | app/install/database.js:125-162 | the recursive totals are the numbers of users and domains below the plan, not counting what is below suspended sub-plans |
| Accounts.TotalIsDeepList | app/install/database.js:125-142 | with no plan below it suspended, a plan's total is the length of its deep list of users |
| AccountSteps.PlanKeepsForest | app/install/database.js:405-426 | adding a plan keeps all links mutual and the tables without cycles |
| AccountSteps.UserKeepsForest | app/install/database.js:428-448 | adding a user keeps the forest exactly when the user does not have the name that stands for no owner; with that name no assignment of depths makes the tables a forest |
| AccountSteps.DomainKeepsForest | app/install/database.js:450-471 | adding a domain keeps the forest |
| AccountSteps.LosingDomainKeepsForest | app/install/database.js:609-618 | deleting a domain keeps the forest |
| AccountSteps.MovingDomainKeepsForest | app/install/database.js:741-763 | giving a domain to another user keeps the forest |
| AccountSteps.SuspendKeepsForest | app/install/database.js:169-182 | suspending a plan keeps the forest |
| AccountSteps.ResumeKeepsForest | app/install/database.js:184-203 | un-suspending a plan keeps the forest |
| AccountQuotas.UserKeepsQuotas | app/install/database.js:241-265 | one user more keeps every plan within its limit exactly when there is room wherever the user counts |
| AccountQuotas.PlanKeepsQuotas | app/install/database.js:405-426 | a new plan changes no total |
| AccountQuotas.DomainKeepsQuotas | app/install/database.js:267-288 | one domain more keeps every plan within its limit exactly when there is room wherever it counts |
| AccountQuotas.MovingDomainKeepsQuotas | app/install/database.js:741-763 | giving a domain away keeps every plan within its limit exactly when there is room wherever it counts and did not before, although the old owner still has it while the check is made |
| AccountQuotas.LosingDomainKeepsQuotas | app/install/database.js:609-618 | deleting a domain keeps the quotas and adds nothing below any plan |
| AccountQuotas.SuspendKeepsQuotas | app/install/database.js:169-182 | suspending a plan keeps the quotas |
| AccountQuotas.ResumeKeepsQuotas | app/install/database.js:184-203 | taking a reason back keeps the quotas exactly when it was not the last one or there is room for all that is below the plan wherever it counts then |
| AccountQuotas.LessKeepsQuotas | app/install/database.js:609-689 | taking users, plans and domains away keeps the quotas |
| AccountDeletion.DeletionKeepsForest | app/install/database.js:656-689 | deleting a plan takes the plan and exactly the plans, users and domains below it, and leaves a forest within its quotas, when nobody is 100000 levels or more below it |
| AccountDeletion.DeepDeletionBreaks | app/install/database.js:656-689 | when somebody is, a user is left whose plan is gone |
| AccountDeletion.UserDeletion | app/install/database.js:620-654 | deleting a user takes the user and exactly what is below, and leaves a forest within its quotas, when nobody is 100000 levels or more below one of its plans |
| AccountDeletion.PlansErased | app/install/database.js:620-632 | deleting plans of a user one by one leaves exactly the users, plans and domains that no one of the deletions would have found at the beginning, however deep the plans are |
| AccountDeletion.DeepUserDeletionBreaks | app/install/database.js:620-654 | when somebody is 100000 levels or more below one of the user's plans, a user is left whose plan is gone |
| AccountLimits.CountsNested | app/install/database.js:218-228 | a plan's limits are never above those of the plans above it; nor may it have users if they may not, and every plan above another may have plans below it |
| AccountLimits.PlanKeepsNested | app/install/database.js:205-239 | the check of a new plan keeps every plan within what the plan above it allows |
| AccountLimits.MaximumIsLeast | app/install/database.js:297-324 | the maximum in force is one of those on the way up, which the unlimited plan ends, and not looser than any of them, -1 standing for no bound |
| AccountLimits.Parent | app/install/database.js:304-306 | a plan's parent is the plan of its owner, which is nearer to a root |
| AccountLimits.ChainIsAbove | app/install/database.js:297-324 | the plans met on the way up are above the plan |
| AccountLimits.ChainIsAllAbove | app/install/database.js:297-324 | the way up meets every plan above exactly when each plan above that has an owner is not the unlimited one and neither its owner nor the owner's plan has an empty name |
| AccountLimits.MaximumIsLeastAbove | app/install/database.js:297-324 | when the way up goes on from every plan above, the maximum in force is not looser than that of any plan above |
| AccountLimits.ChildWithinParent | app/install/database.js:297-324 | a child's maximum in force is within its parent's, exactly unless the child is the unlimited plan below a bounded one |
| AccountLimits.BoolIsConjunction | app/install/database.js:328-344 | a permission is in force exactly when every plan on the way up has it |
| AccountRuns.ChainRoomIs | app/install/database.js:252-263 | the walk over the owners finds room exactly when every plan it looks at has room |
| AccountRuns.LooksAtAll | app/install/database.js:252-263 | it looks at every plan above exactly when no plan above has an empty name or is owned by a user with one |
| AccountRuns.RoomIs | app/install/database.js:252-263 | when it finds room, there is room wherever one more counts exactly if no full plan is out of its sight |
| AccountRuns.StepKeepsForest | app/install/database.js:169-763 | every operation keeps the forest exactly when the condition for it holds |
| AccountRuns.DeleteUserLinks | app/install/database.js:620-654 | deleting a user keeps the links exactly when nobody is too far below one of its plans |
| AccountRuns.QuotasStay | app/install/database.js:169-763 | an operation that keeps the forest keeps every plan within its limits exactly when no full plan out of the sight of the check would count what it adds, and there is room for what it un-suspends |
| AccountRuns.GiveDomainLinks | app/install/database.js:749-757 | changing a domain's owner keeps the links exactly when the new owner exists: otherwise the failure leaves a domain with nobody |
| AccountRuns.DeletePlanLinks | app/install/database.js:656-689 | deleting a plan keeps the links exactly when nobody is too far below it |
| AccountRuns.StepKeepsSound | app/install/database.js:169-763 | forest, quotas and nesting hold after an operation exactly when it is safe: it keeps the links, no hidden full plan would count what it adds, and there is room for what it un-suspends |
| AccountRuns.NamedIsSafe | app/install/database.js:169-763 | in tables without empty names an operation is safe exactly when it keeps the links and, if it takes back the last reason for which a plan is suspended, there is room for what is below that plan |
| AccountRuns.RunKeepsSound | app/install/database.js:169-763 | so does every run of safe operations |
| AccountRuns.RunFromNothing | app/install/database.js:169-763 | from empty tables every run of safe operations ends in a forest within all quotas |
| AccountEffects.PlanIsAccepted | app/install/database.js:198-232 | a plan is added exactly when it is new, may have something, and its owner's plan may have plans below it and offers all that is asked for |
| AccountEffects.RoomIsFound | app/install/database.js:252-263 | without empty names the check finds room exactly when the plan and every plan above it have fewer below them than they may |
| AccountEffects.UserIsAccepted | app/install/database.js:242-263 | without empty names a user is added exactly when it is new and its plan exists, is not suspended, may have users and has room all the way up |
| AccountEffects.DomainIsAccepted | app/install/database.js:269-288 | a domain is added, or given away, exactly when its user's plan is not suspended and has room all the way up |
| AccountEffects.SuspendedIsClosed | app/install/database.js:169-182 | the plan is suspended for one more reason and nothing else changes; then no user can be added to it and no domain be added for, or given to, a user of it |
| AccountEffects.SuspendedCounts | app/install/database.js:125-162 | the plans above a suspended one no longer count what is counted through it, exactly that, and for no other plan anything changes |
| AccountEffects.SuspendedTotals | app/install/database.js:125-162 | the totals of the plans for which it counted lose exactly its own totals |
| AccountEffects.ResumedIs | app/install/database.js:184-203 | one reason is taken back, or without one all of them, and nothing else changes; taking back a reason that was new leads back to the tables before the plan was suspended for it |
| AccountEffects.ResumedCounts | app/install/database.js:184-203 | when the last reason is taken back, what is below the plan counts for all plans its owner counts for, and for no other plan anything changes |
| AccountEffects.AddedPlanIs | app/install/database.js:405-426 | a new plan has what was asked for and nobody in it, above it is what its owner is below, and no count changes |
| AccountEffects.AddedUserIs | app/install/database.js:428-448 | a new user is in its plan, owns nothing, and counts for exactly the plans its plan counts for |
| AccountEffects.AddedDomainIs | app/install/database.js:450-471 | a new domain is its owner's and counts for exactly the plans the owner's plan counts for |
| AccountEffects.DeletedDomainIs | app/install/database.js:609-618 | a deleted domain counts nowhere any more, and nothing else changes |
| AccountEffects.GivenDomainIs | app/install/database.js:741-763 | a domain given away counts for exactly the plans its new owner's plan counts for |
| AccountExamples.EmptyNameHidesFullPlan | app/install/database.js:256-263 | a user with an empty name who owns a plan hides the full plan above from the check: one more user is let in and takes it over its limit |
| AccountExamples.DeletingFromChain | app/install/database.js:656-689 | for a chain of plans and users of every length: deleting the second plan, or the first user, keeps the forest exactly up to 100000 plans below the first |
| AccountExamples.UnlimitedExceedsParent | app/install/database.js:297-324 | a forest in which the unlimited plan is below a bounded one and has more in force than it |
| AccountExamples.UnSuspendingBreaksQuota | app/install/database.js:169-203 | a plan is suspended, the room is given to another user, and the plan is un-suspended: all three are carried out, and the plan above is over its limit |
| Database.Database.TotalUsers | app/install/database.js:125-142 | the recursive loops compute the specified total of users |
| Database.Database.TotalDomains | app/install/database.js:144-162 | the recursive loops compute the specified total of domains |
| Database.Database.CheckRoom | app/install/database.js:241-288 | refuses exactly when the plan is suspended, may not create users, or it or a plan on the way up is full, with the reason that applies first |
| Database.Database.CheckAddPlan | app/install/database.js:205-239 | refuses exactly when the options are beyond what the plan allows |
| Database.Database.AddPlan | app/install/database.js:405-426 | the tables become those after the operation; done, refused or failed exactly as specified |
| Database.Database.AddUser | app/install/database.js:428-448 | the tables become those after the operation; done, refused or failed exactly as specified |
| Database.Database.AddDomain | app/install/database.js:450-471 | the tables become those after the operation; done, refused or failed exactly as specified, even while the table of domains is being changed |
| Database.Database.DeleteDomain | app/install/database.js:609-618 | the tables become those after the operation; fails exactly when there is no such domain |
| Database.Database.UpdateDomain | app/install/database.js:741-763 | the tables become those after the operation, which for a new owner who does not exist fails and leaves the domain with nobody |
| Database.Database.SuspendPlan | app/install/database.js:169-182 | the tables become those after the operation: the plan is suspended for one more reason, earlier reasons stay, and nothing else changes |
| Database.Database.UnSuspendPlan | app/install/database.js:184-203 | the tables become those after the operation |
| Database.Database.GetUsersByPlanName | app/install/database.js:473-496 | lists what the traversal specification lists, or fails when there is no such plan |
| Database.Database.GetUsersByUserName | app/install/database.js:498-510 | lists what the traversal specification lists, or fails when there is no such user |
| Database.Database.GetPlansByUserName | app/install/database.js:512-531 | lists exactly the plans whose owners are the user or below it, down to the given level |
| Database.Database.GetDomainsByUserName | app/install/database.js:557-590 | lists exactly the domains whose owners are the user or, if asked for, below it, down to the given level; without a user, all domains |
| Database.Database.DeletePlan | app/install/database.js:656-689 | the tables become those after the operation; fails exactly when there is no such plan or nobody owns it |
| Database.Database.DeletePlanBelow | app/install/database.js:656-689 | the lists that are gathered are exactly what the specification takes, at every depth, in all tables that are as a forest from the plan on, such as those in which other plans of its owner were deleted |
| Database.Database.DeleteUser | app/install/database.js:620-654 | deletes the user's plans one by one, then the user and its domains, however deep they are; the tables become those after the operation |
| Ports.AllFit | app/hosting_tools.js:29-40 | all blocks fit exactly when the range is at least as long as they are together |
| Ports.AcceptedRangeGivesBlocks | app/definitions/validations.js:166-178 | when the check of the largest port accepts, for the same number of ports per domain, every domain gets a block of its own within the range |
| Ports.NewNumberFits | app/rendering/form_methods.js:533-537 | the check is made with the number configured before; with a new one every domain still gets a block exactly if the range is long enough for that one |
| Ports.NewNumberMisses | app/rendering/form_methods.js:533-537 | a range accepted for one port each in which, with two handed out, the second domain gets none |
| Ports.MaxPortCheckIs | app/definitions/validations.js:166-178 | the check of the largest port accepts exactly the ranges in which every domain gets its block, up to the largest port there is by default |
| Ports.OthersStay | app/hosting_tools.js:29-48 | handing out fewer than two ports leaves what is not handed out as it is |
| Ports.FindFreePorts | app/hosting_tools.js:91-105 | gives the smallest free ports of the range, as many as asked for, and nothing exactly when there are fewer |
| Ports.TakenCount | app/hosting_tools.js:73-86 | no more ports are taken than all domains may have together |
| Ports.AcceptedDomainFindsPorts | app/definitions/validations.js:251-256 | when the check of a new domain accepts, more ports are free than it needs |
| Ports.DomainCheckIs | app/definitions/validations.js:251-256 | the check of a new domain accepts exactly when a block for one more domain fits behind those of all |
| Ports.StepKeepsShares | app/hosting_tools.js:23-105 | no domain takes more than its share after a step, exactly unless a negative number of ports is handed out |
| Ports.RunFindsPorts | app/definitions/validations.js:251-256 | after every run from no domains that hands out no negative number, ports in use forgotten or not, a new domain that the check accepts finds more free ports than it needs |
| Ports.StepKeepsRange | app/hosting_tools.js:62-70 | after a step every domain's port lies between the configured ones, with the exact condition for handing out ports |
| Ports.RunKeepsRange | app/hosting_tools.js:23-105 | over every run of such steps the ports of all domains lie between the configured ones |
| Ports.NoPortsForget | app/hosting_tools.js:29-48 | after handing out no ports at all the ports in use are known to be taken exactly when there are none |
| Ports.PortIsShared | app/hosting_tools.js:23-105 | a run in which two domains get the same port: add one, hand out no ports, add another |
| Ports.StepKeepsDistinct | app/hosting_tools.js:23-105 | after a step the ports for requests are distinct and known to be taken exactly unless it hands out no ports while some are in use |
| Ports.RunKeepsDistinct | app/hosting_tools.js:23-105 | over every such run no two domains have the same port for requests |
| Hosting.Hosting.SetPortRange | app/hosting_tools.js:23-55 | every domain object gets its block, or none where it would not fit, the result tells whether any list of ports changed, and the shares are right exactly unless the number is negative |
| Hosting.Hosting.GetTakenPorts | app/hosting_tools.js:73-86 | lists the ports of each domain, or its port for requests if it has no list |
| Hosting.Hosting.GetFreePorts | app/hosting_tools.js:88-105 | in every good state gives the smallest free ports and, if the check of a new domain accepts, never nothing |
| Hosting.Hosting.AddDomain | app/rendering/form_methods.js:464-473 | a new domain gets the smallest free port, keeps the shares, and is added whenever the check accepts |
| Hosting.Hosting.RemoveDomain | app/install/database.js:609-618 | the domain's ports are free again and no other domain changes |

## Left out

- Linked documents, `beforeChange` filters, read-only ranges, marked spans and collapsed spans; the document's first line is 0.
- Drawing, measuring, scrolling, input events, timers and signals are foreign calls; a drawn line is only the text it shows.
- Clock comparisons and the shapes of selections in merge decisions are arbitrary booleans; heights are natural numbers and the estimate of a line's height is an arbitrary function of its text.
- `clearHistory` and `setHistory`, which restart the generations.
- Document.Doc.MakeChange: the text of `Doc` is a value, the line objects that carry it are those of `DocLines` and `Updates`.
- Document.Doc.MakeChangeFromHistory: the selections set between the changes of one event are not modelled, since only the last one stays.
- HistoryRuns.Run: selections that callers set lie in the text and are normalized, as the public methods make them; hooks that replace them are left out.  A run ends where an undo or redo spoils the history.  An undo of the selection that empties the stack writes in front of its first place, which later calls would read as its top; this is not followed further.
- Selections.NormalizeSelection: the library's sort is modelled as an insertion sort, any of which gives the same order up to ties.
- The two fields that cache a line's styles and order are dropped when its text changes; they are not part of the lines here, nor are the tree's iterators.
- Highlight.RunMode: reading a token is a foreign call that gets further and stays within the line, or throws; line classes and the option that adds the mode's name are not modelled.
- Bidi.BuildOrder: takes the resolved character types; the rules that resolve them and the white space fix-ups behind the loop are left out.
- View.Display.Show: finding out which lines are visible, line numbers and gutters are not modelled.
- The account tables are values in maps, reached by name only; a plan's or user's further options, saving to the database, configuration, and `updateUser`, `updatePlan`, suspending users and `fixDatabase` are not modelled.
- The lists that `deletePlan` and `deleteUser` give back are not modelled.
- The size of the call stack is not modelled: a traversal of plans nested so deeply that the stack is used up throws before anything is deleted.
- AccountLimits.GetMaximum: each maximum that is asked for is given on every plan.
- Ports.RunKeepsDistinct: ports for encrypted requests are not distinct with two or more ports per domain, since those of newly added domains are not counted as taken.
- The checks of the form fields around `MaxPort` and `Domain`: parsing numbers, the form of a domain name, and whether it exists.
