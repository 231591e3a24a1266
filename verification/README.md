# Gitz in Dafny

A Dafny 4.11 model of the algorithmic core of Gitz, a Zig port of go-git with a merge package
of its own, with proofs about it. Everything verifies together: `dafny verify dfyconfig.toml`.

## What is modelled

**Blame** (`History`, `NeedsMap`, `BlameWalk`, `BlameSteps`, `Blame`). A priority queue walks a
commit graph. Each queued item carries the lines that still need an owner; items of one commit
are merged, chains of identical files are bypassed, and answers flow back through child links
guarded by counters. `BlameState.Run` terminates, never reaches its invalid-state error, and
gives every line the owner that `Blames` describes: the commit itself when no parent carries the
line, otherwise what the first parent that carries it answers. There is one exception, in the code:
when two parents with the same file lead to one commit, the walk passes the commit between them by,
and with it an answer that an earlier parent may already have given. So the rule of the first parent
(`FirstOwner`) holds for every history in which that does not happen before the blamed commit
(`ParentsApart`), and `FirstMayLose` is a history where the guarantee ends. The invariant ties each
counter to the number of live items linked to the child, and each link to a parent number.

**Three-way merge** (`Leaves`, `Trees`, `Renames`, `Align`, `Decide`, `Engine`, `MergeLaws`,
`Octopus`). Rename matching, alignment of three path maps, file/directory clashes, per-path
decisions, octopus folding and tree objects. A clean merge takes at every node the side that changed,
or the merged text of base, ours and theirs (`CleanMerge`); several merge bases fold to the merge
of their own base with all their changes (`CrissCross`, `BasesCombine`). Two results are findings
about the code:

* The set of used-up paths that alignment shares between its sides can drop a file. When ours
  renamed `a` to `b` while theirs kept `a` and added its own `b`, rename detection finds the rename,
  the merge is clean and their `b` is gone (`DropsAddedFile`). `TheirsKeptExactly` says exactly when
  this happens.
* A file/directory clash is reported even when one side did not change at all, so the law that an
  unchanged side never matters holds exactly for path sets in which no path is a directory of
  another, counting paths that the other side deleted (`OursUnchangedLaw`). For the same reason
  the outcome of an octopus merge can depend on the order of the heads (`OrderMatters`).
  `OctopusLaw` gives the exact condition for a given order, `FlatAnyOrder` one for all orders.

**Applying merges** (`Checkout`, `MergeFiles`, `MergeState`, `MergePlan`, `MergeRuns`, `MergeUndo`,
`MergeErrors`, `MergeStored`, `MergeWhole`, `MergeStages`, `Worktree`). Merge, abort and continue over references,
index stages, worktree files in folders, git files and a growing object store, as functions of state,
heads and options (`MergeOutcome`, `AbortOutcome`, `ContinueOutcome`). Continuing an uncommitted merge
is proved equal to merging directly, aborting restores the start exactly when no untracked file was
in the way, and an unchanged HEAD, a flat octopus, a fast-forward or a merge that keeps ours is
followed from the call to the state after it (`UnchangedHeadCommits`, `OctopusCommits`, `ForwardsTo`,
`KeepOursCommits`). For any merge with one merge base `MergeLeaves` says, path by path, which index
entries at which stages and which file it leaves, and exactly when it is clean.

`src/merge/error.zig` promises that an error leaves HEAD, index and worktree unchanged. HEAD and the
index always keep it; the worktree does not. `ErrorsExactly` says for every input when it fails: the
checkout removes the files that go and writes files one by one, and stops at a missing blob or at a
folder in the way. A missing blob is one cause (`MissingBreaks`); the other needs nothing missing
(`OnlyDirectoriesBreak`): when a commit replaces a tracked directory that has subdirectories by a
file, the files go but their folders stay, so even a fast-forward fails half way
(`ReplacedDirectoryBreaks`, `HalfWritten`), and so does aborting the reverse merge (`AbortStrands`).

**In-memory filesystem** (`Paths`, `MemPaths`, `MemTree`, `Mem`). Node objects in a flat map with
redundant per-directory listings. Every operation states its whole effect on the map and that the
listings stay exact, or exactly when they do: `putDir` accepts a file as an ancestor, and `rename`
does not refuse to move the root, to move a directory into itself, or to replace a file that has
gained children (`RenameStrands`).

**Images** (`Codec`, `Layout`, `Image`, `ImageIO`, `ImageRead`, `Replay`, `ImageFs`, `ImageFile`).
The length-prefixed image of a storage with nested modules and of the filesystem, its writer, its
reader and the replay of filesystem records. `Layout` describes the bytes of an image on its own
terms; the writers are proved against it, so the format is fixed and not only undone by the reader.

**Refspecs and index names** (`Refspec`, `IndexV4`). Mapping and mapping back through a reversed
refspec; variable-length numbers and prefix-compressed names, with the decoder of version 4 of
Git's index format (gitformat-index, section "Index entry") as the specification.

`Sorting`, `Strings` and `Wrappers` hold shared helpers.

## How the source is abstracted

* A hash is the object it names, so hashing is injective. The store is a finite set of objects that
  grows: trees and blobs that a merge makes are in it afterwards, and reading anything else fails.
* A diff is any valid line script. Text merging, similarity, merge bases, ancestry and attributes
  are arbitrary functions.
* Hash maps are walked in an arbitrary order. In the merge it is fixed for each set of keys and a
  parameter, so that results are functions of the inputs; every law holds for all such orders.
* The worktree is the in-memory filesystem seen by paths: files and folders, where removing a folder
  with something in it fails silently and opening a folder as a file is an error.
* Whether the index decoder accepts given bytes is a parameter of reading and writing images.
* Blame's item pointers are indices into a list of items; a counter is checked against the live
  items that point at the child.
* Methods that change state in the source are methods of a class here, each stated against a
  function or relation on plain values; the laws are lemmas about those.

## Model

| member | source | states |
|---|---|---|
| Blame.BlameState.Run | src/blame/root.zig:227-283 | The walk over every finite acyclic history ends and succeeds (the invalid-state error is never raised); each result line has the text of the blamed file and an owner by `Blames`: the commit itself when no parent carries the line, otherwise what the first parent that carries it answers, where only a commit asked by a child with the same file may be passed by for one that two of its identical parents lead to |
| History.BlamesMay | src/blame/root.zig:227-321 | Every owner the walk gives is reached by steps that each carry the line and is carried no further |
| History.ParentsApart | src/blame/root.zig:227-321 | Where no two identical parents meet before the blamed commit, its lines have exactly the owners of the rule that the first carrying parent decides at every commit |
| History.ApartExact | src/blame/root.zig:227-321 | The same for a commit inside the history, whoever asks it |
| History.ParentlessParents | src/blame/root.zig:405-577 | When no parent of the blamed commit has a parent of its own, a line is owned by the first parent that carries it |
| History.FirstMayLose | src/blame/root.zig:331-358 | Concrete history in which passing a commit by lets a later parent's answer take the place of the first one's |
| BlameWalk.OfferedFirst | src/blame/root.zig:564-598 | Once the first carrier of a line has answered, the line keeps that answer whatever else is offered |
| BlameWalk.FilledFinal | src/blame/root.zig:517-523 | When all parents have answered and the rest is claimed, every line holds its owner |
| Blame.BlameState.AddBlames | src/blame/root.zig:323-515 | One round on the items of one commit keeps the walk invariant, and either finishes the root with its owners or leaves the root waiting with the measure decreased |
| Blame.BlameState.CollapseTwins | src/blame/root.zig:327-358 | Items of one commit collapse exactly when all are identical to one child: the first stays, takes the lowest parent number, the dropped ones are counted off the child, and it skips the chain above; otherwise nothing changes; invariant kept |
| Blame.BlameState.SkipChain | src/blame/root.zig:348-356 | The item is relinked past every identical, unmerged child that waits for it alone, up to the first child that is not; it takes the parent number of the last one skipped, nothing else changes, and the invariant is kept |
| Blame.BlameState.MergeItems | src/blame/root.zig:361-403 | Several items of one commit become the first one, with a link per child in order and the union of the needs maps; every child still gets all the lines it waits for |
| Blame.BlameState.MergeNeeds | src/blame/root.zig:373-400 | The merged needs map is the union of the items' maps, and the walk stays whole while the items are folded |
| Blame.UnionOfHas | src/blame/root.zig:373-400 | A line is needed by the merged item exactly when one of the items needs it |
| Blame.BlameState.VisitParents | src/blame/root.zig:405-512 | After the parents are visited each line is wanted, under its number, from the first parent that carries it, every new item asks the parent whose number it bears, and the outstanding count equals the number of live items linked to this one |
| Blame.BlameState.BypassItem | src/blame/root.zig:412-425 | A single identical parent takes the place of its child under the child's own child; nothing is lost |
| Blame.BlameState.VisitParent | src/blame/root.zig:426-512 | One parent: the identical copy or the hunk walk asks it for exactly the lines it carries, under that parent's number |
| Blame.BlameState.FinishNeeds | src/blame/root.zig:517-562 | Unanswered lines are claimed by the commit, then every waiting child gets its answers; true exactly when the root is complete |
| Blame.BlameState.FinishMerged | src/blame/root.zig:538-561 | Every merged child receives a commit for every one of its lines |
| Blame.BlameState.ApplyNeeds | src/blame/root.zig:564-598 | Answers are delivered to one child, whose counter drops by one; at zero the child is finished in turn |
| Blame.BlameState.BuildResult | src/blame/root.zig:285-321 | The result has one line per line of the file, each with the text and the owner found |
| Blame.BlameState.PopGroup | src/blame/root.zig:269-277 | Pops all queued items at the head that have one commit; no commit left in the queue is newer |
| History.Carry | src/blame/root.zig:405-500 | A line of an identical blob, or the partner of a line in an equal hunk, is a line of the parent with the same text |
| LineScript.OriginIncreasing | src/blame/root.zig:451-489 | Equal hunks pair lines in increasing order |
| LineScript.OriginSameLine | src/blame/root.zig:451-489 | Equal hunks pair lines with the same text |
| History.CarryRefines | src/blame/root.zig:405-514 | Every sound answer for the line a parent carries is a sound answer for the line itself |
| History.BlameHasTrail | src/blame/root.zig:227-321 | A sound owner is reached by parent steps that each carry the line, still holds the text, and no parent of it carries the line further |
| History.TrailIsBlame | src/blame/root.zig:227-321 | Every commit reached that way is a sound owner |
| History.LinearAnswerUnique | src/blame/root.zig:227-321 | Where at most one parent ever carries a line the owner is unique |
| NeedsMap.WalkHunks | src/blame/root.zig:440-491 | The two-counter walk over the hunks yields exactly the needed lines that lie in equal hunks, with their parent line numbers |
| NeedsMap.FromParentExact | src/blame/root.zig:451-489 | A line is asked of the parent exactly when it is needed and the script pairs it with a parent line |
| NeedsMap.FromParentSorted | src/blame/root.zig:451-489 | What is asked of a parent is strictly increasing in both the parent line and the child line |
| NeedsMap.MergeInto | src/blame/root.zig:378-399 | The in-place merge of two needs maps is their sorted union, the first map winning on shared lines |
| NeedsMap.UnionHasCur | src/blame/root.zig:378-399 | A line is in the union exactly when it is in one of the maps |
| NeedsMap.UnionSorted | src/blame/root.zig:378-399 | The union of sorted maps is strictly increasing |
| NeedsMap.CopyAnswers | src/blame/root.zig:538-552 | The two-pointer join copies the answer of every shared line |
| NeedsMap.ApplyIdentical | src/blame/root.zig:571-579 | Line-by-line delivery accepts equal maps and offers each line its answer |
| NeedsMap.ApplyByOrig | src/blame/root.zig:580-591 | The two-pointer delivery offers each child line the answer filed under its number and leaves the others |
| NeedsMap.LowestParentWins | src/blame/root.zig:571-591 | After any sequence of offers from distinct parents a line holds the answer of the lowest-numbered one |
| NeedsMap.OfferOrderIrrelevant | src/blame/root.zig:564-598 | The outcome of the offers does not depend on their order |
| BlameWalk.Deliver | src/blame/root.zig:564-598 | Delivering the owners of a link's lines to its child keeps the walk invariant: the child's line holds the answer of the lowest parent so far |
| BlameWalk.AllParentsDone | src/blame/root.zig:593-596 | When the counter reaches zero no live item is linked to the child, and every line that some parent carries holds the answer of the first one |
| BlameSteps.DropTwin | src/blame/root.zig:331-347 | Dropping an identical sibling item keeps the invariant, with the child's counter lowered by one and the lower of the two parent numbers kept; two parents of the child then lead to the items' commit |
| BlameSteps.TwinChild | src/blame/root.zig:331-347 | The child of two twins still gets each line from its first carrier, by the twin that stays |
| BlameSteps.SkipChild | src/blame/root.zig:348-356 | Bypassing an identical child that waits for one item only, once two parents have led there, keeps the invariant |
| BlameSteps.JoinItem | src/blame/root.zig:361-403 | Folding one more item of the commit into the merged one keeps the invariant |
| BlameSteps.Push | src/blame/root.zig:492-505 | Queueing an item for a parent keeps the invariant, with the counter raised by one |
| BlameSteps.Bypass | src/blame/root.zig:411-424 | Replacing an item by its single identical parent keeps the invariant |
| BlameSteps.QueueNotEmpty | src/blame/root.zig:269-273 | While the root is unfinished the queue holds an item |
| BlameSteps.LoadPush | src/blame/root.zig:269-280 | The sum over queued items of their ancestor path counts bounds the walk |
| Renames.DetectRenames | src/merge/engine.zig:645-747 | An injective matching with every unique identical pair; beyond the limits nothing else; within them every similar pair is chosen or shares an end with a chosen one of no smaller score; determined by the order in which the hash maps are walked |
| Renames.ExactMarked | src/merge/engine.zig:680-687 | Exactly the pairs of a leaf that occurs once among the deletions and once among the additions are matched and marked used |
| Renames.HitsAre | src/merge/engine.zig:700-730 | The hits are every unmatched pair of readable blobs that reaches the threshold, and no other |
| Renames.SimilarMeans | src/merge/engine.zig:700-730 | Two unmatched blobs are similar exactly when the deleted one as old and the added one as new text score at least the threshold |
| Renames.TakenGrows | src/merge/engine.zig:741-746 | Taking hits in order keeps the matching injective and blocks each skipped hit by an earlier taken one |
| Renames.Only | src/merge/engine.zig:749-758 | The index of the one candidate with the leaf, or none when there is none or several |
| Renames.OneOutcome | src/merge/engine.zig:645-747 | When no two similar pairs tie, the outcome does not depend on the order in which the hash maps are walked |
| Renames.NoRenames | src/merge/engine.zig:645-747 | An unchanged side has no renames |
| Align.AlignTrees | src/merge/engine.zig:805-874 | Nodes for every place a base path went and for every unused other path, each slot holding one of the values offered for it; which one is determined by the iteration order |
| Align.PutSplit | src/merge/engine.zig:821-838 | A path renamed apart by the two sides fills one slot at each destination and marks both |
| Align.PutPlain | src/merge/engine.zig:839-861 | Any other base path fills base, ours and theirs at its one destination; slots already filled stay |
| Align.AlignedOnce | src/merge/engine.zig:805-874 | When no rename lands on an unrelated path of the other side, the nodes do not depend on iteration order |
| Align.RenameFollowed | src/merge/engine.zig:805-874 | A path that one side renamed is merged at its new place with what the other side did at the old one, a path renamed apart goes to both places without a base, and nothing stays at the old place |
| Align.AlignFlip | src/merge/engine.zig:805-874 | Alignment treats the two sides alike |
| Align.TheirsKeptExactly | src/merge/engine.zig:805-874 | Every leaf of theirs sits in exactly one node exactly when no rename of ours lands on a path that theirs has otherwise; the code does not check this |
| Align.OursKeptExactly | src/merge/engine.zig:805-874 | The same for the leaves of ours |
| Align.ApartKeeps | src/merge/engine.zig:805-874 | With non-colliding destinations both sides are kept whole |
| Decide.SettleLaw | src/merge/engine.zig:911-934 | Nodes stay as they are when no file clashes with a directory; otherwise a node ends up marked |
| Decide.SettleExactly | src/merge/engine.zig:911-973 | When labelled names are free and distinct: a file in the way of the other side's directory moves with its base to its path and the label of its side, a node with files of both sides or file and directory of one keeps its stages, every other stays as it is |
| Decide.SettleKeepsLeaves | src/merge/engine.zig:911-973 | When no labelled name collides with a path, every leaf of either side ends at its own path or at that path with the label of its side |
| Decide.RelocatedKeeps | src/merge/engine.zig:936-973 | One side's file goes to `path~label` unless something of that side is there, and is marked; every other leaf keeps its place |
| Decide.HasChildKey | src/merge/engine.zig:889-894 | True exactly when a key lies below the path |
| Decide.SideHasChild | src/merge/engine.zig:898-909 | True exactly when a key below the path has a leaf on that side |
| Engine.MergedIsMerge | src/merge/engine.zig:276-320 | The merge that the iteration orders determine is one that detection, alignment and clash handling allow, so the laws below hold of it |
| Engine.TreeOfDescribes | src/merge/engine.zig:609-633 | For distinct paths the tree is canonical and holds exactly what the output paths describe |
| Engine.TreeOfWhole | src/merge/engine.zig:609-633 | Once what the merge made is stored, every object of that tree can be read |
| Engine.DecideNodes | src/merge/engine.zig:297-304 | Decisions are collected in key order, each seeing the blobs stored by those before it; the first error ends the merge |
| MergeLaws.MergeTrees | src/merge/engine.zig:260-320 | Reads the three trees, or fails when one is missing, and merges their files; the store grows by what was made |
| MergeLaws.OursUnchangedLaw | src/merge/engine.zig:260-320 | Merging (base, base, theirs) is clean exactly when our attributes can be read and no path of theirs, nor of the base unless theirs renamed it away, is a directory of another; then the result is theirs and readable, with renames on or off |
| MergeLaws.TheirsUnchangedLaw | src/merge/engine.zig:260-320 | Merging (base, ours, base): the same with the sides exchanged |
| MergeLaws.SameChangeLaw | src/merge/engine.zig:260-320 | Merging (base, x, x) with agreeing renames is clean exactly when the attributes can be read and no path of x is a directory of another, and gives x |
| MergeLaws.SameRenames | src/merge/engine.zig:285-288 | The two detections agree when no similar pairs tie |
| MergeLaws.UnchangedTree | src/merge/engine.zig:260-320 | At the level of objects: merging a canonical tree from an unchanged side returns that very tree |
| MergeLaws.CleanMerge | src/merge/engine.zig:350-496 | Every clean merge had no file/directory clash, takes at every node the side that changed or, for two changes, the clean text merge of base, ours and theirs with the changed or common mode or the descending submodule commit, resolves every output path, and stores exactly those files |
| MergeLaws.CleanNode | src/merge/engine.zig:350-496 | A clean decision is a three-way take: equal sides stay, an unchanged side yields, two changes are combined into the blob of the merged text, with its mode, or the descending submodule commit |
| MergeLaws.CleanBoth | src/merge/engine.zig:422-549 | Two different changes decided cleanly are two non-binary texts whose merge, in the order base, ours, theirs, is clean and is the result, or submodule commits of which one descends from the other |
| MergeLaws.OneRefused | src/merge/engine.zig:362-380 | A marked node makes the merge conflict, or makes trivial merging refuse |
| MergeLaws.ClobberFound | src/merge/engine.zig:645-747 | On the input of `DropsAddedFile` rename detection finds exactly the rename that leads to the loss |
| MergeLaws.DropsAddedFile | src/merge/engine.zig:847-849 | Concrete input on which every merge with renames is clean and loses a file that theirs added |
| Octopus.StepLaw | src/merge/engine.zig:350-420 | A trivial step succeeds exactly when our attributes can be read, at every path some two of base, ours and theirs agree, and no path of the two sides is a directory of another; it gives the takes |
| Octopus.MergeOctopus | src/merge/engine.zig:153-173 | Each head is merged with the base of HEAD and that head, in order, until the first error; each step sees what the one before it stored |
| Octopus.OctopusLaw | src/merge/engine.zig:153-173 | With one base tree and readable heads the fold succeeds exactly when at every path the heads that changed it agree and at each step no path of the fold so far and the next head is a directory of another; the result is the base with those changes, and the only error is a conflict |
| Octopus.FlatAnyOrder | src/merge/engine.zig:153-173 | A flat union of all paths meets the second condition in every order |
| Octopus.OrderIrrelevant | src/merge/engine.zig:153-173 | For heads with a flat union of paths every order gives the same tree or the same refusal |
| Octopus.StepCompatible | src/merge/engine.zig:160-171 | A step is trivial exactly when the new head is compatible with all heads before it |
| Octopus.OrderFree | src/merge/engine.zig:153-173 | Compatibility and the combined result do not depend on the order of the heads |
| Octopus.OrderMatters | src/merge/engine.zig:911-934 | Without a flat union the order matters: concrete heads that merge one way round only |
| Octopus.AncestorTree | src/merge/engine.zig:90-112 | Error or tree for no, one or several merge bases, by depth, shallowness and strategy; several bases are folded into virtual ones, at most 32 deep (what they fold to is said by `CrissCross` and `BasesCombine`) |
| Octopus.AncestorLaw | src/merge/engine.zig:90-149 | One base is its tree and stores nothing; several bases that share one readable canonical tree give that tree whenever they give one |
| Octopus.FoldLaw | src/merge/engine.zig:114-149 | Whenever folding bases that share one readable canonical tree gives a tree, it is that one, at every depth and whatever their own bases are |
| Octopus.CrissCross | src/merge/engine.zig:114-149 | Two bases with a merge base of their own: the tree to merge from is their merge from that base, and when it is clean holds at every node what the three call for |
| Octopus.BasesCombine | src/merge/engine.zig:114-149 | Several bases that come from one root tree and changed different things fold, without rename detection, to the root with the changes of all of them |
| Octopus.TrivialMerge | src/merge/engine.zig:260-320 | Where every path is a trivial take and no path a directory of another, any merge without renames is clean and gives the takes |
| Octopus.BaseErrors | src/merge/engine.zig:90-112 | The errors of finding a base: depth, cut-off history, and several bases in a trivial merge |
| Octopus.NoBase | src/merge/engine.zig:100-109 | Without a merge base the tree to merge from is empty, exactly when unrelated histories may be merged and the history is complete |
| Trees.WalkPrefix | src/merge/model.zig:49-72 | Adds exactly the files below a tree, or fails when a tree object is missing |
| Trees.WalkTree | src/merge/model.zig:44-47 | The files of a tree; the zero hash names the empty tree |
| Trees.TreeForFaithful | src/merge/model.zig:104-125 | For a byte-sorted list of distinct paths the tree built is canonical and holds exactly the list; runs of a directory are contiguous and the recursion ends |
| Trees.StoredWhole | src/merge/model.zig:104-125 | With everything the building stores in the store, the tree can be walked |
| Trees.StoreThenWalk | src/merge/model.zig:100-102 | Building then walking is the identity on byte-sorted lists of distinct paths of any depth |
| Trees.TakeRun | src/merge/model.zig:112-116 | The inner loop takes exactly the run of items below one directory |
| Trees.CanonicalUnique | src/merge/model.zig:100-125 | Two canonical trees with the same files are the same object |
| Trees.WalkThenStore | src/merge/model.zig:44-125 | Walking a canonical tree and building it again gives the very same object |
| Trees.ShiftTree | src/merge/model.zig:156-182 | Wraps a tree in one directory per component of the prefix, refusing an empty component |
| Trees.ShiftedFiles | src/merge/model.zig:156-182 | Every file of the tree moves under the prefix and nothing is added |
| Trees.WrapCanonical | src/merge/model.zig:170-181 | Shifting keeps a non-empty canonical tree canonical |
| Trees.WrapWhole | src/merge/model.zig:156-182 | With the wrapping directories stored, the shifted tree is readable when the tree was |
| Trees.GoodShift | src/merge/engine.zig:206-212 | On a validated prefix shifting is not refused and uses every component |
| Worktree.Worktree.Merge | src/merge/apply.zig:33-82 | The whole new state and the result, determined by state, heads and options: refused, nothing to do, fast-forward, or the computed result applied |
| Worktree.Worktree.Decide | src/merge/apply.zig:34-77 | The checks and relations before anything changes, in the order of the code |
| Worktree.Worktree.Compute | src/merge/apply.zig:202-251 | The computed tree by strategy and every object stored on the way: three-way against the ancestor tree, shifted by the given or detected prefix, octopus or HEAD's own tree, with the first error of label, base, prefix or merge |
| Worktree.Worktree.StopOnConflict | src/merge/apply.zig:256-263 | A conflict writes files, stages, ORIG_HEAD, MERGE_HEAD, MERGE_MSG and AUTO_MERGE and leaves HEAD |
| Worktree.Worktree.LeaveUncommitted | src/merge/apply.zig:269-275 | A clean result is checked out and recorded without a commit |
| Worktree.Worktree.CommitMerge | src/merge/apply.zig:277-285 | A clean result is committed with HEAD and the heads as parents, checked out, and HEAD moves |
| Worktree.Worktree.FastForward | src/merge/apply.zig:380-386 | The incoming tree is checked out and HEAD moves to the incoming commit |
| Worktree.Worktree.Materialize | src/merge/apply.zig:388-444 | Stale indexed files go where removal succeeds, the result's files are written in order, with parents made, up to a missing blob or a directory in the way, and only then the index is replaced (which entries it has is said by `EntriesAre` and `MergeLeaves`) |
| Checkout.FailsExactly | src/merge/apply.zig:416-431 | Writing the files fails exactly when some file to be written has no blob, or is blocked by a folder with something left in it or needed by an earlier file; otherwise every file stands as described |
| Checkout.StopsAtFirst | src/merge/apply.zig:416-431 | It stops at the first such file: all files before it are written, its parent folders are made, and the error says which of the two it was |
| Checkout.UntouchedExactly | src/merge/apply.zig:388-431 | A failed checkout leaves the worktree as it was exactly when no removed name was there, every file written before the stop had those very bytes, and no folder was made |
| Worktree.Worktree.AssertClean | src/merge/apply.zig:501-546 | The first reason why index or worktree differ from HEAD's tree |
| MergePlan.CleanCheck | src/merge/apply.zig:501-546 | The check passes exactly when index and worktree match HEAD |
| MergePlan.PlanLaw | src/merge/apply.zig:33-78 | On a clean HEAD with accepted options: nothing to do exactly when HEAD has every head; a fast-forward exactly for a single-head strategy whose commit is ahead, unless refused; an error exactly when only a fast-forward would do and there is none; otherwise a merge |
| MergePlan.PlanErrors | src/merge/apply.zig:33-65 | Which error a merge that does not start returns, in the order of the checks |
| MergePlan.RefusalLaw | src/merge/apply.zig:168-200 | Which options are accepted, option by option, and the two errors |
| MergePlan.SpecLaw | src/merge/apply.zig:202-328 | Renames and conflict trees go with recursive strategies, trivial takes with the octopus; the names of the sides and the strategy that is chosen by default |
| MergePlan.MessageLaw | src/merge/apply.zig:352-378 | A message ends its last line; without one it names the merged commits in their order |
| Worktree.Worktree.ResolveHead | src/merge/apply.zig:562-585 | The commit at the end of at most ten symbolic hops |
| MergeState.HeadMoved | src/merge/apply.zig:587-593 | After moving HEAD it resolves to the new commit |
| Worktree.Worktree.MergeAbort | src/merge/apply.zig:84-96 | The tree of ORIG_HEAD is checked out, HEAD moves back and the merge files go |
| Worktree.Worktree.MergeContinue | src/merge/apply.zig:98-140 | The index tree is committed with HEAD and the recorded heads as parents, unless stages, files or identity are missing |
| MergeState.IndexTreeLaw | src/merge/apply.zig:110-121 | The tree stored from an index without stages is canonical and holds exactly the index entries |
| Worktree.TakeTree | src/merge/engine.zig:176-204 | Stage-0 output for every file of a readable tree, otherwise the missing object |
| MergeState.TakePathsTake | src/merge/engine.zig:176-204 | The output has each file of the tree exactly once, in whatever order |
| MergePlan.PrefixLaw | src/merge/engine.zig:230-258 | With readable directories a prefix is detected exactly when one single root directory shares an entry name with the root of theirs, and it is that one |
| MergeFiles.ParseHeads | src/merge/apply.zig:122-129 | The object names on the non-blank lines of MERGE_HEAD |
| MergeFiles.HeadsBack | src/merge/apply.zig:693-702 | The heads written to MERGE_HEAD are read back in order |
| MergeFiles.HeadsLines | src/merge/apply.zig:693-702 | MERGE_HEAD has one line of forty digits for each head, in their order |
| MergeFiles.DigitLaw | src/merge/apply.zig:720-723 | Digits of a recorded name are read in either case, and nothing else is |
| MergeFiles.HexDigits | src/merge/apply.zig:685-702 | Each byte of an object name becomes two digits, the higher one first |
| MergeFiles.OneHashBack | src/merge/apply.zig:685-691 | The commit written to ORIG_HEAD is read back |
| MergeRuns.StepKeeps | src/merge/apply.zig:33-140 | Merge, abort, continue and user edits each keep: MERGE_HEAD implies MERGE_MSG, ORIG_HEAD naming HEAD's commit and recorded heads; conflict stages only while MERGE_HEAD exists |
| MergeRuns.RunKeeps | src/merge/apply.zig:33-140 | The invariant holds at every state of every run |
| MergeRuns.NeverCorrupt | src/merge/apply.zig:86-130 | Over every run neither abort nor continue reports a corrupt merge state |
| MergePlan.ComputedGood | src/merge/apply.zig:224-251 | Every computed result indexes what it writes and, when clean, resolves every path of the tree it names |
| MergeUndo.ContinueIsDirect | src/merge/apply.zig:98-140 | An uncommitted clean merge followed by continue ends like a direct merge commit: same files, index and merge files, parents, message and tree contents; the same commit when the result tree is canonical |
| MergeUndo.ContinueLaw | src/merge/apply.zig:98-140 | In every reachable state with a merge in progress, continue is refused exactly while a conflict stage is left and otherwise commits the index with HEAD and the recorded heads as parents, leaving index and files alone and nothing of the merge behind |
| MergeUndo.AbortRestores | src/merge/apply.zig:84-96 | Abort right after a stopped merge restores HEAD's commit, the index and the store, the references themselves exactly when HEAD is at most one symbolic hop from its commit, and the bytes of every file exactly when no untracked file lay at a path the merge put into the index |
| MergeErrors.ErrorsExactly | src/merge/apply.zig:33-82 | An error moves no reference, changes no index entry and writes no merge file, and it changes worktree files exactly when the checkout that the merge would start is half done (`Breaks`), a condition on state, heads and options |
| MergeErrors.MaterialExactly | src/merge/apply.zig:388-444 | A checkout fails exactly when one of its files is stuck, and fails with changed files exactly when what it removes or writes before the first stuck file differs from what was there |
| MergeErrors.MaterialError | src/merge/apply.zig:388-444 | The error is the missing blob or the directory of the first stuck file |
| MergeErrors.AbortErrorsExactly | src/merge/apply.zig:84-96 | Abort with its commit and tree at hand fails exactly when a file of that tree is stuck; then references, index and merge files stay, and files change exactly when the checkout is half done |
| MergeStored.OnlyDirectoriesBreak | src/merge/apply.zig:33-82 | When the blobs of all incoming heads are stored, the only error that comes with changed files is a directory in the way |
| MergeStored.ComputeStored | src/merge/apply.zig:202-251 | When the blobs of HEAD and the heads are stored, every file of a computed result is, including those the merge itself made |
| MergeWhole.MissingBreaks | src/merge/apply.zig:380-431 | A fast-forward to a tree with a missing blob fails with changed files whenever some tracked file is to go |
| MergeWhole.ReplacedDirectoryBreaks | src/merge/apply.zig:380-431 | A fast-forward that replaces a tracked directory with a nested one below it by a file fails with changed files, no blob missing: emptied folders are never removed |
| MergeWhole.AbortStrands | src/merge/apply.zig:84-96 | Aborting a merge that replaced a file by nested directories fails the same way |
| MergeWhole.HalfWritten | src/merge/apply.zig:33-82 | A concrete clean repository, all objects stored, on which `merge` returns an error with the worktree changed |
| MergeWhole.CommitsResult | src/merge/apply.zig:202-285 | A clean computed result whose checkout is not stuck is committed: parents, message, tree and HEAD; the index is that tree, its files stand in the worktree, tracked files it does not have are gone, untracked ones stay, and the merge files are gone |
| MergeWhole.ForwardsTo | src/merge/apply.zig:380-386 | A fast-forward that is not stuck moves HEAD to the incoming commit, checks out its tree, records HEAD's old commit and commits nothing |
| MergeWhole.KeepOursCommits | src/merge/apply.zig:202-285 | The strategy that keeps ours commits HEAD's own tree with HEAD and the heads as parents |
| MergeWhole.UnchangedHeadCommits | src/merge/apply.zig:33-82 | When HEAD still has the files of the single merge base and no subtree shift is asked for, a three-way merge is clean exactly under the condition of `OursUnchangedLaw`, and then commits the very tree of the incoming commit with its files and index |
| MergeWhole.OctopusCommits | src/merge/apply.zig:33-82 | An octopus over one base tree is refused exactly when the heads disagree or a step is not flat, changing nothing but the store; otherwise it commits the fold |
| MergeStages.EntriesAre | src/merge/apply.zig:434-451 | A resolved path has one entry at stage 0; otherwise its base stands at stage 1, ours at 2 and theirs at 3 |
| MergeStages.NodeEntries | src/merge/engine.zig:350-496 | The entries at the path of a node are those its leaves call for: the side that changed, the combination of two changes, or all versions in their stages |
| MergeStages.NodeFile | src/merge/engine.zig:350-496 | The file at the path of a node: the side that changed, the merged text with its conflicts, or ours in conflict |
| MergeStages.NodeClean | src/merge/engine.zig:350-496 | A node is decided cleanly exactly when it has no clash, no double rename, no rename of what the other side removed, and two different changes can be reconciled |
| MergeStages.MergeLeaves | src/merge/apply.zig:33-82 | Any merge with one merge base, applied: its index has exactly the entries and its worktree exactly the files that its aligned and settled nodes call for, other tracked files are gone, untracked ones stay, and it is clean exactly when every node is |
| MergeStages.SubtreeLeaves | src/merge/apply.zig:225-251 | The same for a subtree merge, with the files of base and incoming commit moved under the given or detected prefix |
| MergeStages.PlainNodes | src/merge/engine.zig:276-320 | Without renames and clashes the nodes are just the paths of the three trees with their three leaves |
| MergeStages.TreeShowsFiles | src/merge/engine.zig:609-633 | The tree of a result, conflicted or not, has at every written path the bytes that stand in the worktree, and at a conflict without a file ours, or theirs if there is no ours |
| Paths.Join | src/fs/path.zig:35-74 | Joining is the stack walk over the pieces of all parts, rendered |
| Paths.CrossesBoundary | src/fs/path.zig:13-31 | The depth counter goes below zero exactly when the path climbs above its start |
| Paths.CrossesExactly | src/fs/path.zig:13-31 | A path without a leading slash does not cross exactly when joining it to any non-empty root keeps all of the root's segments |
| Paths.CleanIdempotent | src/fs/path.zig:76-79 | Cleaning twice changes nothing more |
| Paths.JoinLeft | src/fs/path.zig:35-74 | Joining a joined prefix with more parts is joining all parts |
| Paths.JoinRightExactly | src/fs/path.zig:35-79 | Cleaning the right part first gives the same join exactly when that part is absolute, does not climb, or nothing is there to climb out of |
| Paths.RenderBack | src/fs/path.zig:35-79 | A rendered path reads back as the segments it was rendered from |
| MemPaths.FindParent | src/fs/mem.zig:246-252 | The path up to the last slash, or the root |
| MemPaths.FindBase | src/fs/mem.zig:254-259 | What follows the last slash |
| MemPaths.ParentChild | src/fs/mem.zig:246-259 | Every absolute path but the root is the child of its parent under its base name |
| MemPaths.AbsInClean | src/fs/mem.zig:181-204 | Keys are clean absolute paths, except the branch of a chroot view that hands a path back unchanged |
| MemPaths.UncleanKey | src/fs/mem.zig:188-197 | Concrete path for which that branch yields an unclean key |
| MemTree.WithDirDirsOnly | src/fs/mem.zig:206-231 | Making a directory keeps files childless exactly when its nearest existing ancestor is a directory |
| MemTree.DropLinked | src/fs/mem.zig:426-437 | Removing a key keeps the children maps exact exactly when it has no children |
| MemTree.MoveLinked | src/fs/mem.zig:465-574 | Moving a subtree out of itself keeps every listing exact exactly when whatever still lay below the new path moves along or is overwritten |
| MemTree.MoveBreaks | src/fs/mem.zig:408-424 | Moving the root, or a directory into itself, leaves no exact listing; neither is refused |
| MemTree.MoveBack | src/fs/mem.zig:465-574 | Entries outside the subtree stay, and moving back restores the tree |
| MemTree.PlanMoves | src/fs/mem.zig:477-574 | Detaching the planned keys and inserting them under their new names is prefix substitution |
| MemTree.PlanKids | src/fs/mem.zig:535-573 | Unlinking, clearing and linking again, in any order, leaves each directory with exactly its names |
| MemTree.DetachedEmpty | src/fs/mem.zig:528-545 | Detached longest first, every node has lost all its children when its turn comes |
| Mem.Mem.PutDir | src/fs/mem.zig:206-231 | A directory and every missing ancestor are made, and the children maps stay exact |
| Mem.Mem.LinkChild | src/fs/mem.zig:233-244 | The path is listed in its parent if that exists and does not list the name already |
| Mem.Mem.UnlinkFromParent | src/fs/mem.zig:439-449 | The name is dropped from the parent's children |
| Mem.Mem.RemoveAbs | src/fs/mem.zig:426-437 | Error cases and, on success, exactly the one entry gone; listings stay exact exactly when it had no children |
| Mem.Mem.RekeyTree | src/fs/mem.zig:465-574 | The same node objects under substituted keys, all else untouched; listings exact exactly unless the root or a directory into itself is moved or something stays behind below the new path |
| Mem.Mem.Rename | src/fs/mem.zig:408-424 | Error cases and, on success, prefix substitution after replacing an existing file and making parents, with node identity kept; listings exact exactly unless it moves the root, moves a directory into itself, or replaces a file with children that do not move along |
| Mem.RenameLaw | src/fs/mem.zig:408-424 | Renaming succeeds exactly when both names are one or the old one exists and the new one is no directory; what lay below the old path then lies below the new one, nothing is left behind, and all else stays |
| Mem.RenameStrands | src/fs/mem.zig:408-424 | Concrete tree on which a rename replaces a file that has a child and leaves that child unlisted |
| Mem.RenamedDirsOnly | src/fs/mem.zig:408-424 | Files stay childless over a rename that keeps the listings exact and whose target has no file above it |
| Mem.Mem.OpenFile | src/fs/mem.zig:275-332 | Error cases, creation with missing ancestors, exclusive and truncating opens, with listings exact |
| Mem.OpenLaw | src/fs/mem.zig:275-332 | Opening succeeds exactly on an existing file unless exclusive and on a missing one with create; it touches no other entry, new files get the permission bits asked for, and what was opened can be opened again but no longer exclusively |
| Mem.Mem.MkdirAll | src/fs/mem.zig:261-265 | Makes the cleaned path |
| Mem.Mem.Symlink | src/fs/mem.zig:607-637 | Refuses an existing path, otherwise adds a link with the target as data |
| Mem.Mem.Readlink | src/fs/mem.zig:639-645 | The target of a link, or why there is none |
| Mem.Mem.Stat | src/fs/mem.zig:334-352 | The entry at a path |
| Mem.Mem.ReadDir | src/fs/mem.zig:359-383 | Exactly the names of the children, strictly increasing, with their sizes and modes |
| Mem.Mem.Chmod | src/fs/mem.zig:147-152 | Permission bits replaced, kind bits kept |
| Mem.NewModeLaw | src/fs/mem.zig:147-152 | The twelve permission bits are the new ones and the kind bits the old ones |
| Mem.Mem.Lchown | src/fs/mem.zig:154-160 | Owner and group replaced |
| Mem.Mem.Chtimes | src/fs/mem.zig:168-174 | Both times replaced |
| Mem.Mem.WriteAt | src/fs/mem.zig:688-696 | Data stands at the position, every other byte is kept, the file grows as needed, and a gap beyond the old end holds arbitrary bytes |
| Codec.RoundTrip | src/persistence/root.zig:392-449 | Reading what was written gives the value back and consumes exactly its bytes, for lists and nested storages of any depth |
| Codec.ByteAt | src/persistence/root.zig:406-410 | The least significant byte of a number comes first |
| Codec.FourBytes | src/persistence/root.zig:437-442 | Four bytes are read as the number whose least significant byte comes first |
| Codec.DigitsBack | src/persistence/root.zig:406-442 | Any bytes are those of the number they are read as |
| Codec.ParseStays | src/persistence/root.zig:422-449 | What has been read does not depend on what follows |
| Codec.NoShorter | src/persistence/root.zig:429-434 | No strict prefix of a complete text is complete |
| ImageIO.WriteStorage | src/persistence/root.zig:66-120 | Appends one encoded value, the bytes that `Layout.StorageImage` describes, which fits the image and whose loading rebuilds the storage with everything nested in it |
| ImageIO.WriteObjects | src/persistence/root.zig:69-80 | A four-byte count and, for every object, kind, length and content |
| ImageIO.WriteRefs | src/persistence/root.zig:82-97 | A four-byte count and, for every reference, its name, type and target |
| ImageIO.WriteConfig | src/persistence/root.zig:215-258 | The configuration as one value whose loading rebuilds it, in the bytes that `Layout` describes |
| ImageIO.WriteGitFiles | src/persistence/root.zig:189-204 | Git files in byte order of their names, each with its length before it |
| ImageIO.WriteModules | src/persistence/root.zig:114-119 | A four-byte count and each module's name and storage |
| ImageRead.ReadStorage | src/persistence/root.zig:122-187 | Accepts exactly the values that parse, have known object kinds and git-file names and indexes that decode, and loads them on top of the storage given |
| ImageRead.ReadSettings | src/persistence/root.zig:176-186 | Configuration, git files and modules |
| ImageRead.ReadConfig | src/persistence/root.zig:260-296 | Loads the configuration that parses |
| ImageRead.ReadModules | src/persistence/root.zig:182-186 | Loads each named module on top of the one there is, or of an empty one |
| ImageRead.ImageReader.Raw | src/persistence/root.zig:429-434 | The next bytes, or nothing and no movement if there are fewer |
| Replay.ReplayRebuilds | src/persistence/root.zig:352-376 | Replaying parents-first records on an empty filesystem rebuilds every path below the root with kind, mode, content, owner and times |
| Replay.RelKey | src/fs/mem.zig:181-204 | A clean key names itself when given without its leading slash |
| ImageFs.Collect | src/persistence/root.zig:331-350 | The paths below a directory, each exactly once and after its parent, depth first and siblings in byte order |
| ImageFile.WriteFilesystem | src/persistence/root.zig:298-327 | One record per path below the root, parents first |
| ImageFile.ReadFilesystem | src/persistence/root.zig:352-376 | Replays every record that parses; fails exactly when one does not parse or cannot be replayed |
| ImageFile.ReadFile | src/persistence/root.zig:378-390 | The whole content of a file, read in buffers, or the error of opening it |
| ImageFile.Export | src/persistence/root.zig:29-41 | The eight magic bytes, the version as 01 00 00 00, the bytes of the storage, and a count and one record for every path, depth first and siblings in byte order |
| ImageFile.Restore | src/persistence/root.zig:43-64 | Succeeds exactly on complete images of version 1, refuses a wrong magic, a short header and another version with their own errors, and gives the storage and files described |
| ImageFile.RestoreUndoesExport | src/persistence/root.zig:29-64 | Restoring an exported image gives back the storage and every path below the root |
| ImageFile.NoPrefixRestores | src/persistence/root.zig:43-64 | No strict prefix of an image restores |
| Refspec.DstInRange | src/config/refspec.zig:101-126 | On a matched name of a valid spec the slices are in range |
| Refspec.MatchExactly | src/config/refspec.zig:78-99 | A valid spec matches exactly its source, or the fillings of the wildcard in it |
| Refspec.ReverseValid | src/config/refspec.zig:129-137 | The reversed spec is valid exactly when the source side is not empty |
| Refspec.MapsBack | src/config/refspec.zig:78-137 | Mapping a matched name and mapping back through the reversed spec returns it exactly when neither side starts with `+` |
| Refspec.SidesValid | src/config/refspec.zig:35-47 | Two sides without separators and with equally many wildcards, at most one, make a valid spec |
| Refspec.MatchAny | src/config/refspec.zig:141-146 | True exactly when some spec matches |
| IndexV4.EncodeVlq | tools/gen_index_fixtures.py:60-70 | The stack loop writes the groups of the number, the last one first |
| IndexV4.VlqBijection | tools/gen_index_fixtures.py:60-70 | Numbers and well-formed continuation-byte strings correspond one to one |
| IndexV4.VlqBytes | tools/gen_index_fixtures.py:60-70 | The very bytes of numbers of up to three groups: continued groups first, each counted from one |
| IndexV4.DecodeVlq | tools/gen_index_fixtures.py:60-70 | Reads one such number off the front, or fails on an unfinished one |
| IndexV4.WriteEntry | tools/gen_index_fixtures.py:115-132 | Header, strip length, suffix and NUL after the longest common prefix with the previous name |
| IndexV4.HeaderBytes | tools/gen_index_fixtures.py:115-120 | The header byte for byte: times, mode, size with its most significant byte first, object name and capped name length |
| IndexV4.BeBytes | tools/gen_index_fixtures.py:115-120 | The most significant byte of a number comes first |
| IndexV4.WriteEntries | tools/gen_index_fixtures.py:156-173 | The entries one after the other, each against the name before it |
| IndexV4.EntryBack | tools/gen_index_fixtures.py:115-132 | Decoding an entry returns its name, object name and size |
| IndexV4.StreamBack | tools/gen_index_fixtures.py:156-173 | A decoder that keeps only the previous name recovers any list of NUL-free names |

## Left out

- Allocation failure, rollback on it, and ownership bookkeeping.
- Host filesystem, transports, configuration file parsing and the wasm build.
- Blame across renames: `parentsContainingPath` is the list of parents that hold the path under its own name, so two queued items of one commit have the same path.
- Blame output formatting and dates.
- Blame.BlameState.Run: where two identical parents of one commit meet, which of the answers that `Blames` allows is given depends on commit dates and is not determined.
- The order of queued items with equal dates is a total order on commits; items of one commit are popped in an arbitrary order.
- Trees.TreeForFaithful: lists with duplicate paths or directory modes are built too, but only byte-sorted lists of distinct non-directory paths are proved to be built faithfully.
- Decide.SettleExactly: where a labelled name collides with a path, only what one relocation does is stated, by RelocatedKeeps.
- MergeLaws.MergeTrees: text merging and attribute matching are arbitrary functions, with favoured side, diff algorithm, conflict style and marker labels fixed inside the former; attributes files that do not parse are not modelled.
- Octopus.OctopusLaw: one base tree for all heads; heads with different bases are modelled by MergeOctopus but have no closed form.
- Octopus.BasesCombine: with rename detection only two bases are followed (`CrissCross`); temporary commits of virtual bases are not objects of the store.
- MergeStages.MergeLeaves: where a name to move aside to is taken by another node, only cleanness is stated; several merge bases are followed up to the tree to merge from.
- MergeErrors.ErrorsExactly: worktrees in which something lies below a file (`Tidy` excludes them; the in-memory filesystem can make them), and paths with empty, `.` or `..` components.
- Checkout.FailsExactly: executable bits and the fallback for links that cannot be made.
- Worktree.Worktree.Compute: the base label only matters as a possible error.
- Worktree.Worktree.CommitMerge: author and committer are one opaque value; times are not modelled.
- Clone, fetch, checkout and every other command.
- Chroot views that share the node map, temporary files, open-name slots, and positions of open files.
- ImageRead.ReadStorage: reference types and hash algorithms outside the known range are undefined in the source; here an unknown reference type is read as the invalid one.
- ImageIO.WriteStorage: the index is its encoded bytes, since the index codec is not part of this model; all storages use twenty-byte object names.
- Replay.ReplayRebuilds: mode, owner and times of the root itself are not in the image.
- IndexV4.WriteEntry: the closing checksum and the version 2 and 3 entries, which have only fixed layout and padding.
- Strategies `recursive` and `ort` are one, as in the source.
