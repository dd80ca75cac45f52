# fvs2d: a verified model of its union file system

fvs2d mounts committed states as a file system. A read-only lower tree is merged from a stack of
layers; an optional upper directory records creates, writes, deletions and renames, with a file
named `.wh.<name>` standing for a deletion. This project models that union, the merge and the inode
tree behind it, the block reads, the cache of shared trees and the two difference reports, and
proves what they promise.

Check it with `dafny verify dfyconfig.toml` (Dafny 4.11).

## How it is laid out

- `Paths`, `Entries`, `TreeData`, `Wrappers`: the vocabulary. A path is the sequence of its
  components and the root is the empty sequence. What a client sees at a path is its kind, link
  target and bytes.
- `BlockReads`, `Streaming`: byte ranges of files stored in fixed or variable blocks, and the loops
  that stream, compare and copy them.
- `Ordering`, `Rendering`: string order, sorting, and paths written out with slashes.
- `InodeTree`: the inode graph built from a flat list, against a plain map of paths.
- `LayerMerge`, `MergedTree`, `CommittedFiles`: the stack of layers, whiteouts and opaque markers, the
  tree the merged list stands for, and that its leaves can be read.
- `UnionState`, `UnionMoves`: the state of a mount, the invariant, one entry at a time, and renames.
- `UnionFs`: the class whose methods are the file system operations. Every primitive call on the
  upper directory can fail: `faults` is the set of calls that do, and `undo` the set of those that fail
  when an operation takes back what it has done.
- `BuiltTrees`: what each listed entry becomes in the built tree.
- `MountRuns`: requests of a client against a flat file system.
- `LowerView`, `Capture`, `Commit`, `Recommit`, `Sessions`: committing the upper directory as a layer,
  and whole sessions.
- `CacheKey`, `TreeCache`, `Manager`, `CacheContent`: the key of a stack; the reference-counted cache
  as a state machine whose steps are the critical sections; the mount manager, each method of which
  takes one of the steps; and `acquireTree` over real trees, with what those it returns answer.
- `MountDiff`, `MountDiffWalk`, `MountDiffProofs`, `PathSums`: the report of what a mount changed,
  and pruning.
- `StateDiff`: the difference of two committed states.
- `Limits`: a small state for each place where the code does not do what one would expect.

## Main results

1. The invariant behind `stat` (`UnionState.State.Inv`) is written nowhere in the source: a marker
   hides a lower entry and nothing stands in the upper directory beside it, and no lower entry has a
   parent that is hidden or covered by an upper non-directory. Under it the marker of the last
   component alone decides what a walk from the root would find (`UnionState.StatIsWalk`). Every
   operation keeps it but for two cases: a rename does exactly under `UnionMoves.RenameKeepsInvExactly`,
   and a marker that is left behind breaks it exactly under `UnionFs.MarkerLeftBehind`.
2. A rename moves a subtree if and only if no lower entry lies below the source and everything lower
   below the destination is covered (`UnionMoves.RenameIsMoveExactly`); it merges the subtree into the
   destination if and only if no lower entry lies below the source (`UnionMoves.RenameIsMergeExactly`).
3. Every request is answered with success exactly under a condition on the state and the calls that
   fail, and then is one step of a flat `map<Path, Node>`; with an error it leaves the view as it was,
   but for exceptions named with their causes (`MountRuns.Handle`). A client that chooses its requests
   from the replies it gets sees, after any number of them that keep the state good, the flat file
   system with the successful ones replayed, and every reply is the right one in the state the request
   met (`MountRuns.Serve`). Where no call fails, the mount accepts what a flat file system accepts, but
   for directories that have a lower part and renames of or over directories
   (`MountRuns.AcceptsAsFlat`, `MountRuns.RenameOfDirsExactly`).
4. Whole sessions, of any number of rounds: in each the stack of layers is merged, built and mounted, a
   client is served, and the upper directory is committed as one more layer. After all of them the stack
   shows the first one with the successful requests of all rounds replayed, and every request was
   answered rightly (`Sessions.Session`, by way of `Capture.CaptureTheorem`). The hypotheses are about
   the first stack, the clients, and markers that can be closed.
5. The merge holds at each path the entry of the highest layer that lists it unless a strictly
   higher layer hides it (`LayerMerge.MergeIsTopLayer`); the inode graph is a fold over the list for
   any list, conflicts included (`InodeTree.BuildTree`), in which a leaf survives exactly when no
   later entry overrides it (`MergedTree.LeafStaysExactly`). Which paths the tree has, and each field of
   what stands there, is said in terms of the list alone (`BuiltTrees`).
6. A read returns the requested slice exactly, and fails exactly when a block that overlaps it is
   missing; the out-of-range error does not occur (`BlockReads.ReadAt`). That a fixed layout fits the
   block size is necessary for it as well (`BlockReads.FixedReadsExactly`). Adjacent reads join, but for
   one case with its exact condition (`BlockReads.AdjacentReadsJoin`). Files listed with the sizes of
   their blocks become leaves that can be read so (`CommittedFiles.StackLeavesOk`).
7. In every interleaving the reference count of a tree is the number of its holders, holders of a
   key share one tree, each mount is released once, and without holders the cache is empty
   (`TreeCache`, `Manager`). `acquireTree`, with other calls taking any steps while it does not hold the
   lock, returns a tree exactly when the layers can be merged (`CacheContent.AcquireTree`), and a tree
   from the cache answers every lookup and every read as a fresh merge of its layers
   (`CacheContent.AcquiredIsFresh`).
8. The mount diff reports each changed file once with the right kind, but for files that an upper
   directory stands over (`MountDiffProofs.ReportIsDifference`, `MountDiffProofs.MissedExactly`). Its
   deltas add up to the difference in bytes, and pruning keeps every file, exactly under stated
   conditions. An upper file is unreported exactly when it has the mode and the bytes its entry lists
   (`BuiltTrees.ReportedUnlessAsListed`). The diff of two committed states is said in terms of the two
   lists (`StateDiff.Diff`).

## Where the code departs from what it promises

The repository's README calls the mount a union file system whose upper directory is "ready to
commit". These are the points where the code falls short of that, each with a state that shows it
and the exact condition under which the code does what is expected.

- Removing a directory whose lower children have all been unlinked fails with ENOTEMPTY: the markers
  in it keep its upper half from being empty. `Limits.EmptiedDirStays`; exact condition in
  `UnionFs.UnionFs.Remove`.
- Renaming a directory that has a lower part moves the upper part only, and what stays behind is
  found by `stat` though its parent is gone. `Limits.RenamedDirLeavesLower`,
  `Limits.RenamedDirExample`; exact conditions in `UnionMoves.RenameIsMoveExactly` and
  `UnionMoves.RenameKeepsInvExactly`.
- Renaming an upper directory over a lower directory that is not empty merges the two. The state stays
  good unless a file comes to stand over a lower directory with content.
  `Limits.RenameOverLowerMerges`, `Limits.RenameOverLowerExample`; exact conditions in
  `UnionMoves.RenameIsMergeExactly` and `UnionMoves.RenameKeepsInvExactly`.
- A removal or a rename that fails can leave its marker, which hides the file though the call reported
  an error: when closing the marker file fails, or when a later step fails and the marker cannot be
  removed again. `Limits.FailedUnlinkHides`, `UnionFs.MarkerLeftBehind`; exact conditions in
  `UnionFs.UnionFs.Remove` (`LeavesMarker`) and `UnionFs.UnionFs.Rename` (`SourceMarkerLeft`).
- A creation or a rename that fails can lose the marker it has cleared, so that a removed lower entry
  shows again, when the marker cannot be set again. `Limits.FailedMkdirUncovers`; exact conditions in
  `UnionFs.UnionFs.Make` and `UnionFs.UnionFs.Rename` (`LosesMarker`).
- A directory cannot be renamed over an empty one of the upper directory, as `os.Rename` refuses it, and
  a directory that only the lower tree has cannot be renamed at all.
  `MountRuns.RenameOfDirsExactly` is the exact condition, `Limits.NotOverEmptyDir` a state.
- Adjacent reads can both succeed where the one longer read fails: an empty block right between them is
  fetched by the longer read only. `Limits.ReadInPartsOnly`; exact condition in
  `BlockReads.AdjacentReadsJoin`.
- A stack is mounted with the block size of its highest layer that states one. Files of other layers
  that rely on another block size are read wrongly. `Limits.MixedBlockSizesMisread`; exact condition in
  `BlockReads.FixedReadsExactly`.
- A higher layer is to override a path from a lower one. A file over a lower directory that is listed
  with its content, and not whited out, does not: it takes the directory's place in the list, and the
  content listed after it turns it into a directory again. `Limits.FileOverDirIsLost`; exact
  condition in `MergedTree.LeafStaysExactly`.
- An opaque marker at the root hides nothing, where the OCI Image Format Specification, Image Layer
  Filesystem Changeset, section "Opaque Whiteout", lets it hide all lower entries.
  `Limits.OpaqueHidesBelowExactly`.
- A lower FIFO, and a symlink entry without a target, are copied up as regular files.
  `UnionFs.CopyIsFaithfulExactly`.
- A file replaced by a directory of the same name is missing from the mount diff, its bytes are
  missing from the deltas, and pruning brings the file back. `Limits.ReplacedByDirUnreported`; exact
  conditions in `MountDiffProofs.MissedExactly`, `MountDiffProofs.DeltasConserveBytesExactly` and
  `MountDiffProofs.PruneKeepsFilesExactly`.
- The state diff does not see an entry whose kind alone changed. `Limits.KindChangeUnreported`; exact
  condition in `StateDiff.UnlistedLooksAlikeExactly`.

## Model

| member | source | states |
|---|---|---|
| Paths.TargetOfMarker | cmd/fvs2d/fuse.go:97-103 | a path's marker is `.wh.` plus its last component in the same directory, and the path can be read back from it |
| Paths.MarkersDiffer | cmd/fvs2d/fuse.go:97-103 | different paths have different markers |
| Paths.ProperExactly | cmd/fvs2d/fuse.go:59-61 | exactly the empty name, ".", ".." and names with a slash are refused |
| Paths.MarkerSpelled | cmd/fvs2d/fuse.go:97-103 | the marker of a path has ".wh." before the last component |
| UnionState.EmptyUpperIsOk | cmd/fvs2d/fuse.go:40-55 | over any well-formed lower tree an empty upper directory satisfies the invariant and shows the lower tree |
| UnionState.StatIsWalk | cmd/fvs2d/fuse.go:105-119 | under the invariant, looking at the last component's marker only agrees with walking the path through visible directories |
| UnionState.ParentIsVisibleDir | cmd/fvs2d/fuse.go:105-119 | a path that `stat` finds has a visible directory as its parent |
| UnionState.InvisibleIsFree | cmd/fvs2d/fuse.go:105-119 | where nothing is visible the upper has nothing and no lower entry lies below, and a lower entry exists exactly when a marker hides it |
| UnionState.PutEntry | cmd/fvs2d/fuse.go:490-497 | writing one upper entry keeps the invariant and changes the view at that path only |
| UnionState.DropMarker | cmd/fvs2d/fuse.go:454-460 | removing a marker keeps the invariant and makes exactly the lower entry it hid visible again, without children |
| UnionState.PutMarker | cmd/fvs2d/fuse.go:462-471 | a marker over a childless lower entry keeps the invariant and removes exactly that path from the view |
| UnionState.DropEntry | cmd/fvs2d/fuse.go:597-604 | removing a childless upper entry keeps the invariant and shows the lower entry, if there is one |
| UnionState.EntryMade | cmd/fvs2d/fuse.go:486-497 | clearing the marker and writing the entry makes the path appear and changes nothing else |
| UnionState.EntryReplacedByMarker | cmd/fvs2d/fuse.go:590-604 | setting the marker and removing the upper entry makes the path disappear and changes nothing else |
| UnionState.EmptyLookingDir | cmd/fvs2d/fuse.go:581-604 | a directory that lists as empty has an empty upper half exactly when it has no lower children |
| UnionMoves.WithDirsIsInvisible | cmd/fvs2d/fuse.go:483-485 | creating the missing ancestors of a visible directory, wherever it stops, keeps the invariant and cannot be seen |
| UnionMoves.LookupAfterRename | cmd/fvs2d/fuse.go:636-668 | what `stat` answers at every path after a rename, whatever lower entries and markers sit at either end |
| UnionMoves.RenameIsMoveExactly | cmd/fvs2d/fuse.go:611-670 | the view after a rename is the view with the subtree moved if and only if nothing lower lies below the source and everything lower below the destination is covered |
| UnionMoves.MoveExactWhenFree | cmd/fvs2d/fuse.go:611-670 | that condition holds whenever the source is no directory or is not in the lower tree, and the destination is no visible directory |
| UnionMoves.RenameIsMergeExactly | cmd/fvs2d/fuse.go:611-670 | the view after a rename is the view with the subtree merged into the destination if and only if nothing lower lies below the source |
| UnionMoves.MergeIsMove | cmd/fvs2d/fuse.go:611-670 | merging is moving where nothing lies below the destination |
| UnionMoves.RenameKeepsInvExactly | cmd/fvs2d/fuse.go:611-670 | a rename keeps the invariant if and only if nothing lower lies below the source and nothing but directories comes to stand over lower directories with content |
| UnionMoves.MoveKeepsInv | cmd/fvs2d/fuse.go:611-670 | every rename that moves the whole subtree meets that condition |
| UnionFs.UnionFs.constructor | cmd/fvs2d/fuse.go:40-55 | a tree mounted over any upper directory is in a good state exactly when the two together are; over an empty one, or read-only, it is and shows the tree |
| UnionFs.UnionFs.LowerNode | cmd/fvs2d/fuse.go:80-95 | finds a node exactly at the paths of the lower tree, with what the tree says about it |
| UnionFs.UnionFs.HasWhiteout | cmd/fvs2d/fuse.go:97-103 | answers whether a marker hides the path; never on a read-only mount |
| UnionFs.UnionFs.Stat | cmd/fvs2d/fuse.go:105-140 | both halves of the answer; existence agrees with the view, and the kind says directory, file, link or FIFO exactly where the view has one |
| UnionFs.UnionFs.MkdirAll | cmd/fvs2d/fuse.go:483-485 | creates what is missing of a directory path without a visible effect; it stops half way exactly when a call fails that makes a missing directory |
| UnionFs.UnionFs.ClearWhiteout | cmd/fvs2d/fuse.go:454-460 | removes the marker if there is one; a missing marker is no error |
| UnionFs.UnionFs.MakeWhiteout | cmd/fvs2d/fuse.go:462-471 | adds missing directories and the marker; exactly which failing calls leave the marker out, and which leave it though the call fails |
| UnionFs.MarkerLeftBehind | cmd/fvs2d/fuse.go:462-471 | a marker left over a visible lower path hides it; the state stays good exactly when the upper has nothing there and nothing lower lies below |
| UnionFs.UnionFs.MarkIfLower | cmd/fvs2d/fuse.go:590-595 | the first step of removal and rename: a marker where a lower entry has to be hidden; when it fails, and exactly when the marker is left then |
| UnionFs.UnionFs.RestoreWhiteout | cmd/fvs2d/fuse.go:492-496 | setting a cleared marker again restores the view, exactly when the file can be opened; otherwise the lower entry stays uncovered |
| UnionFs.UnionFs.Make | cmd/fvs2d/fuse.go:473-559 | the common course of the three creations, with exact conditions for success and for a marker that is lost when it fails |
| UnionFs.UnionFs.Create | cmd/fvs2d/fuse.go:473-501 | success, under its exact condition, adds an empty file with the permissions the umask leaves at one invisible path and changes nothing else; failure leaves the view, but for a marker lost under its exact condition |
| UnionFs.UnionFs.Mkdir | cmd/fvs2d/fuse.go:503-530 | the same for a directory: lower children never reappear |
| UnionFs.UnionFs.Symlink | cmd/fvs2d/fuse.go:532-559 | the same for a symlink with the given target |
| UnionFs.UnionFs.DirEntries | cmd/fvs2d/fuse.go:212-252 | strictly sorted; a name is listed exactly when `stat` finds it, with the kind of what is there; every error by its exact condition |
| UnionFs.UnionFs.Remove | cmd/fvs2d/fuse.go:561-609 | success, under its exact condition, removes exactly one path from the view; failure leaves it, but for a marker left under its exact condition, which hides the path; every error code by its condition |
| UnionFs.UnionFs.CopyBytes | cmd/fvs2d/fuse.go:314-344 | the loop ends with the file's exact bytes and what the umask leaves of its permissions, or with the file removed again exactly when a read or a call fails |
| UnionFs.UnionFs.CopyUp | cmd/fvs2d/fuse.go:292-344 | success puts the leaf's link or bytes in the upper and changes nothing else in the view; failure, under its exact condition, leaves no entry and the same view |
| UnionFs.CopyIsFaithfulExactly | cmd/fvs2d/fuse.go:304-316 | a copied-up leaf looks like the original exactly when it has a link target or is neither FIFO nor symlink |
| UnionFs.RenamedIsAs | cmd/fvs2d/fuse.go:636-668 | after a rename: what `stat` answers at every path, when that is a move, when a merge, and when the state stays good |
| UnionFs.UndoneFails | cmd/fvs2d/fuse.go:650-666 | what a rename that fails leaves, whichever of its rollback calls fail in their turn |
| UnionFs.UnionFs.MoveMarked | cmd/fvs2d/fuse.go:650-668 | the move and its rollbacks: when it succeeds, and exactly which markers are left or lost when it fails |
| UnionFs.UnionFs.Rename | cmd/fvs2d/fuse.go:611-670 | exactly when it succeeds, and every error by its exact condition; what success leaves at every path, with the exact conditions for a move, a merge and a good state; what failure at any call leaves, with exact conditions for a marker left and a marker lost |
| UnionFs.UnionFs.Open | cmd/fvs2d/fuse.go:355-378 | exactly when it succeeds, and with which error it fails; opening for reading changes nothing, opening for writing only copies up, and the handle then writes to the upper file |
| UnionFs.UnionFs.WriteThrough | cmd/fvs2d/fuse.go:372-375 | writing through a handle on an upper file changes the view at that path only and keeps the invariant |
| UnionFs.UnionFs.ReadLower | cmd/fvs2d/fuse.go:284-290 | reading through a handle on the lower tree returns the requested piece of the file |
| LayerMerge.FilterInPlace | cmd/fvs2d/tree.go:350-361 | the in-place filter keeps exactly the paths that are not deleted, in order, and deletes the others from the map |
| LayerMerge.KeepEnumerates | cmd/fvs2d/tree.go:350-361 | after it the order still enumerates the map's keys without repetition |
| LayerMerge.Merger.Add | cmd/fvs2d/tree.go:344-349 | a new path goes to the end of the order, a known one keeps its place |
| LayerMerge.Merger.Del | cmd/fvs2d/tree.go:350-361 | deletes a path and what lies below it from order and map alike |
| LayerMerge.Merger.DropBelow | cmd/fvs2d/tree.go:382-392 | walking a copy of the order while it shrinks deletes exactly what lies below the directory |
| LayerMerge.Merger.ApplyMarker | cmd/fvs2d/tree.go:375-397 | one marker removes exactly what it hides, opaque and malformed markers and paths that need cleaning included |
| LayerMerge.ProperIsResolved | cmd/fvs2d/tree.go:380-395 | cleaning leaves a proper path as it is |
| LayerMerge.ResolveSteps | cmd/fvs2d/tree.go:380-395 | what cleaning a path does with each further component |
| LayerMerge.ResolvedIsClean | cmd/fvs2d/tree.go:380-395 | a cleaned path has no empty and no "." component, and ".." in front only |
| LayerMerge.Merger.MergeLayer | cmd/fvs2d/tree.go:363-411 | one layer's two passes hide first and add second; what stays keeps its place in the order, new paths go to the end |
| LayerMerge.MergeIsTopLayer | cmd/fvs2d/tree.go:339-411 | the merge holds at a path the entry of the highest layer listing it, unless a strictly higher layer hides it |
| LayerMerge.MergeStepIsTwoPasses | cmd/fvs2d/tree.go:375-411 | a layer's own markers never hide its own entries |
| InodeTree.TreeBuilder.Add | cmd/fvs2d/tree.go:177-217 | one listed entry takes the graph from one path map to the next: ancestors become directories, a leaf replaces the subtree at its path |
| InodeTree.TreeBuilder.EnsureDir | cmd/fvs2d/tree.go:164-175 | keeps a directory, and replaces a missing name or a leaf by an empty one |
| InodeTree.TreeBuilder.BlockOffsets | cmd/fvs2d/tree.go:204-212 | offsets are the running totals of the block sizes, and absent when the two lists differ in length |
| InodeTree.FileNodeRefines | cmd/fvs2d/tree.go:213-217 | filing a node replaces the subtree at its path in the path map |
| InodeTree.ChildrenByName | cmd/fvs2d/tree.go:221-236 | `childOrder` is the enumeration of the children sorted by name |
| InodeTree.BuildTree | cmd/fvs2d/tree.go:153-238 | for any list, conflicts included, the graph presents the fold of the list; inode numbers grow from parent to child; no inode has two paths; children are in name order |
| InodeTree.LookupTreePath | cmd/fvs2d/manager.go:654-666 | following the names finds a node exactly at the paths of the tree |
| InodeTree.ChildrenArePaths | cmd/fvs2d/tree.go:62-71 | a directory's children are exactly the paths one name longer |
| MergedTree.FoldIsTreeOf | cmd/fvs2d/tree.go:416-420 | for a conflict-free set of files the built tree does not depend on the order of the list |
| MergedTree.LeafStaysExactly | cmd/fvs2d/tree.go:177-217 | in any list, conflicting or not, the last entry for a path, if a leaf, is in the tree exactly when no later entry lies below it or is a leaf above it |
| BuiltTrees.PresentExactly | cmd/fvs2d/tree.go:177-217 | a path is in the built tree exactly when it or something below it is listed and no leaf above it is listed later |
| BuiltTrees.LeafIsAsListed | cmd/fvs2d/tree.go:190-217 | a leaf that stays has the kind, link, mode, blocks and size of the last entry for its path, and its blocks start one after the other |
| BuiltTrees.NodeIsAsListed | cmd/fvs2d/tree.go:190-217 | so does the inode its path leads to |
| BuiltTrees.DirIsAsListed | cmd/fvs2d/tree.go:180-189 | a listed directory has the mode of its last entry, 0o755 for none, unless a leaf above it is listed later |
| BuiltTrees.UnlistedIsDir | cmd/fvs2d/tree.go:160-176 | a path that is only listed by what lies below it is a directory with mode 0o755 |
| BuiltTrees.ReportedUnlessAsListed | cmd/fvs2d/manager.go:873-895 | an upper file over a listed file is reported unless it has the mode and bytes listed, an upper link unless it has the target listed |
| BuiltTrees.CopyReportedExactly | cmd/fvs2d/manager.go:873-895 | a file opened for writing and left as it is, is reported exactly when the umask has taken something from its mode; a link is not |
| MergedTree.ListAllEnumerates | cmd/fvs2d/tree.go:416-420 | the list the tree is built from holds every merged file once, in merge order |
| MergedTree.ConflictFreeFold | cmd/fvs2d/tree.go:416-420 | for a conflict-free stack the built tree is the one its files stand for |
| MergedTree.BuildMerged | cmd/fvs2d/tree.go:334-421 | the whole merge: errors, block store, block size, and the tree that is the fold of the merged list |
| MergedTree.MountBlockSizeExactly | cmd/fvs2d/tree.go:363-415 | the block size is that of the highest layer that states one, else 4096 |
| LowerView.FoldIsTree | cmd/fvs2d/tree.go:153-238 | whatever the list, the result is a directory tree |
| LowerView.FoldIsPlain | cmd/fvs2d/tree.go:177-217 | from plain listed paths a tree of plain paths is built, in any order |
| CommittedFiles.LeafIsWellFormed | cmd/fvs2d/tree.go:203-212 | an entry whose recorded block sizes are those of its blocks, or whose blocks have the block size, becomes a leaf that can be read |
| CommittedFiles.StackLeavesOk | cmd/fvs2d/tree.go:334-421 | merging and building such entries gives a tree all of whose leaves can be read |
| BlockReads.AdjacentReadsJoin | cmd/fvs2d/tree.go:73-117 | two adjacent reads that succeed concatenate to the longer one, which fails exactly when an empty block right between them is missing |
| BlockReads.MultiGet | cmd/fvs2d/tree.go:38-51 | returns a block exactly when some store has it, from the first that does |
| BlockReads.MultiStoreAgrees | cmd/fvs2d/tree.go:36-51 | a stack of stores that agree with the committed blocks agrees with them too |
| BlockReads.SearchAfter | cmd/fvs2d/tree.go:122 | the binary search finds the first offset beyond the requested one |
| BlockReads.VariableLanding | cmd/fvs2d/tree.go:122-125 | the block before that one contains the requested offset, empty blocks notwithstanding |
| BlockReads.FixedLanding | cmd/fvs2d/tree.go:90-91 | dividing by the block size finds the block containing the offset |
| BlockReads.ReadAtVariable | cmd/fvs2d/tree.go:121-150 | the slice of the content, or the store's error exactly when an overlapping block is missing; nothing for an end that has wrapped, given a buffer that can be allocated |
| BlockReads.ReadAtFixed | cmd/fvs2d/tree.go:86-116 | the cut blocks one after the other, whatever sizes they have, or the first error |
| BlockReads.FixedReadIsSlice | cmd/fvs2d/tree.go:86-116 | where the layout fits the block size that is the slice of the content, or the store's error exactly when an overlapping block is missing |
| BlockReads.FixedReadsExactly | cmd/fvs2d/tree.go:86-116 | every read of a file in fixed-size blocks is right if and only if each block starts where the block size puts it, or at the end of the file |
| BlockReads.ReadAt | cmd/fvs2d/tree.go:75-117 | the content from the offset, clipped at the end of the file, or the store's error; never the out-of-range error; empty outside the file and where the 64-bit sum wraps; for every length whose buffer can be allocated |
| Streaming.SendFile | cmd/fvs2d/manager.go:691-717 | terminates; chunks are contiguous from 0, non-empty and all but the last as long as the limit, and make up the file, or a proper prefix when a block is missing |
| Streaming.SameContent | cmd/fvs2d/manager.go:897-927 | true exactly when the upper bytes start with the lower content; errors only for a missing block or a shorter upper file |
| LowerView.TreeIsLowerOk | cmd/fvs2d/fuse.go:40-55 | any directory tree of plain names can be mounted as a lower tree |
| Capture.CaptureIsConflictFree | README.md:11-15 | a captured upper directory never makes the stack list a path below a non-directory |
| Capture.CaptureTheorem | README.md:11-15 | merging the captured upper as one more layer gives, at every path, the kind, link and bytes of the live view |
| Capture.CaptureKeepsModes | cmd/fvs2d/tree.go:190-217 | the committed tree has the permissions of the upper files and the modes of the lower ones |
| Capture.CaptureOfStack | cmd/fvs2d/tree.go:334-421 | the same for any stack of layers |
| Recommit.CaptureIsProper | cmd/fvs2d/tree.go:375-405 | the paths of a captured layer are proper, so the merge cleans them to themselves |
| Commit.CommitUpper | README.md:11-15 | there is always a layer that captures an upper directory, in a store that extends the one at hand |
| Commit.LowerStays | cmd/fvs2d/tree.go:38-51 | more blocks do not change what a readable tree shows |
| Recommit.LongerStackReady | cmd/fvs2d/tree.go:334-421 | with the captured layer on top the stack stays conflict-free and plain, and shows the live view |
| MountRuns.Handle | cmd/fvs2d/fuse.go:355-670 | exactly when a request succeeds, with any failing calls and without, and the errors; what it does: a step of a flat file system, or nothing, or a marker left or lost; exactly when the state stays good |
| MountRuns.OutcomeIsServed | cmd/fvs2d/fuse.go:355-670 | a request that keeps the state good, with markers that close and rollbacks that succeed, is a step of the flat file system or changes nothing |
| MountRuns.Serve | cmd/fvs2d/fuse.go:355-670 | serving any number of a client's requests, each chosen from the replies before, shows the flat file system with the successful ones replayed; each reply is right in the state before it, a success exactly for an acceptable request where no call fails |
| MountRuns.AcceptsAsFlat | cmd/fvs2d/fuse.go:473-670 | without failing calls a request is accepted exactly when a flat file system with the same content accepts it, but for directories that lower entries lie below and renames that involve directories |
| MountRuns.RenameOfDirsExactly | cmd/fvs2d/fuse.go:611-670 | exactly which renames of directories and over directories are accepted |
| MountRuns.CreateThenWriteAdmitted | cmd/fvs2d/fuse.go:473-501 | a client that creates a file and writes to it if that succeeded is one whose requests the kernel would send |
| MountRuns.CreateThenWriteWorks | cmd/fvs2d/fuse.go:473-501 | where no call fails, a client that creates a file and writes to it succeeds, and the file is there with its bytes |
| Sessions.ReplaceRoundsAdmitted | cmd/fvs2d/fuse.go:473-609 | clients that each replace a file meet the hypothesis of the session theorem, over any number of rounds and from every good state |
| Sessions.MountStack | cmd/fvs2d/manager.go:235-262 | merging, building and mounting a stack of commits, conflicting or not, gives a good state and shows the tree that is built |
| Sessions.CommitAndRemount | README.md:11-15 | committing the upper directory and mounting the longer stack shows what the mount shows; the longer stack can be mounted, served and committed again |
| Sessions.Session | README.md:11-15 | any number of rounds of mounting, serving and committing: the stack grows by a layer a round and shows the first view with all successful requests replayed; every request was answered rightly |
| Sessions.SessionAndMount | README.md:11-15 | the stack of such a session, mounted read-only, shows the same |
| CacheKey.BuildKey | cmd/fvs2d/manager.go:108-113 | the key is the layers' repository and state joined by the two separators |
| CacheKey.DecodeKey | cmd/fvs2d/manager.go:108-113 | the layers can be read back from the key, even when repository paths contain the unit separator |
| CacheKey.KeyIsInjective | cmd/fvs2d/manager.go:108-113 | different stacks have different keys |
| Manager.MountManager.TryAcquire | cmd/fvs2d/manager.go:114-121 | the first lookup is one step of the state machine; a tree found is a good one for the layers, and the call holds it |
| Manager.MountManager.JoinOrInstall | cmd/fvs2d/manager.go:127-135 | after a build the call holds the tree cached meanwhile or its own, either being a good one for the layers |
| Manager.MountManager.ReleaseTree | cmd/fvs2d/manager.go:138-149 | a release finds its tree, which stays cached exactly while others hold it |
| Manager.MountManager.Register | cmd/fvs2d/manager.go:286-288 | the tree passes from the call to the registered mount: it stays cached, shared and counted once for each holder |
| Manager.MountManager.Take | cmd/fvs2d/manager.go:326-334 | one mount leaves the registry, and the call has its tree to give back; or none is found and nothing changes |
| Manager.MountManager.TakeEvery | cmd/fvs2d/manager.go:346-352 | every mount leaves the registry under one lock, in one step of the state machine |
| TreeCache.StepKeepsCounts | cmd/fvs2d/manager.go:108-153 | every critical section keeps the reference counts equal to the number of holders |
| TreeCache.StepKeepsHolders | cmd/fvs2d/manager.go:108-136 | every critical section keeps all holders on the cached tree of their key |
| TreeCache.StepKeepsIds | cmd/fvs2d/manager.go:325-359 | every id issued is registered, released, or in exactly one call's hands |
| TreeCache.EveryRunKeepsInv | cmd/fvs2d/manager.go:235-359 | all of this in every interleaving of create, unmount and unmountAll, failed creates included |
| TreeCache.OthersKeep | cmd/fvs2d/manager.go:114-135 | whatever steps other calls take, the invariant holds and this call stands where it was |
| TreeCache.HoldersShare | cmd/fvs2d/manager.go:123-135 | holders of one key share one tree, the loser of a double build included, and it is a good one for their layers |
| TreeCache.CachedIsMerged | cmd/fvs2d/manager.go:108-136 | what is cached for a stack is a tree that is good for that stack |
| CacheContent.FreshMerge | cmd/fvs2d/manager.go:123 | merging and building the resolved layers gives a tree exactly when they can be merged, and the tree shows their merge |
| CacheContent.AcquireTree | cmd/fvs2d/manager.go:108-136 | with any steps of other calls in between: a tree exactly when the layers can be merged; the call then holds the cached tree, and it shows the merge of the layers |
| CacheContent.SameContentAnswersAlike | cmd/fvs2d/tree.go:62-117 | trees with the same content find the same paths and read the same bytes, or fail alike |
| CacheContent.AcquiredIsFresh | cmd/fvs2d/manager.go:108-136 | a tree held from the cache answers every lookup and read as any fresh merge of its layers |
| TreeCache.TreesStay | cmd/fvs2d/manager.go:127-133 | a cached tree is never exchanged while it stays cached |
| TreeCache.ReleaseFindsTree | cmd/fvs2d/manager.go:138-149 | a release always finds its tree with a positive count |
| TreeCache.CachedWhileHeld | cmd/fvs2d/manager.go:138-149 | a key is cached exactly while somebody holds its tree |
| TreeCache.QuietCacheIsEmpty | cmd/fvs2d/manager.go:138-149 | without holders the cache is empty |
| TreeCache.EveryMountReleased | cmd/fvs2d/manager.go:325-359 | when nothing is mounted or leaving, every issued mount has been released |
| TreeCache.ReleasedOnce | cmd/fvs2d/manager.go:325-359 | no run releases a mount twice |
| MountDiffWalk.EntryUnchanged | cmd/fvs2d/manager.go:873-895 | true exactly when the upper entry repeats the lower one: same link, or same bytes and mode |
| MountDiffWalk.DiffFile | cmd/fvs2d/manager.go:851-868 | what one file or link adds to the report, and when it is pruned |
| MountDiffWalk.DiffUpperDir | cmd/fvs2d/manager.go:813-871 | the recursion terminates and reports every significant entry below the directory once; pruning leaves exactly what is significant and what leads to it |
| MountDiffWalk.DiffMount | cmd/fvs2d/manager.go:795-811 | the reply is strictly sorted by path and is the same whether or not it prunes |
| MountDiffWalk.ReplyIsUnique | cmd/fvs2d/manager.go:809-810 | the reply is determined by the mount's state; pruning first, or a second time, gives the same list |
| MountDiffProofs.ReportIsDifference | cmd/fvs2d/manager.go:818-868 | REMOVED, ADDED and MODIFIED are reported at exactly the paths where the merged view and the lower tree differ that way |
| MountDiffProofs.MissedExactly | cmd/fvs2d/manager.go:834-849 | a file that differs is missing from the report exactly when an upper directory stands over a lower leaf |
| MountDiffProofs.DeltasAccountForBytes | cmd/fvs2d/manager.go:822-868 | the deltas add up to merged bytes minus lower bytes, plus the bytes that upper directories stand over |
| MountDiffProofs.DeltasConserveBytesExactly | cmd/fvs2d/manager.go:822-868 | they add up to the difference exactly when no upper directory stands over a lower leaf with bytes |
| MountDiffProofs.PruneKeepsInv | cmd/fvs2d/manager.go:834-863 | pruning keeps the invariant |
| MountDiffProofs.PruneKeepsFilesExactly | cmd/fvs2d/manager.go:834-863 | pruning keeps every file and link of the view exactly when no lower leaf resurfaces from under an unreported directory |
| MountDiffProofs.PruneTwiceIsOnce | cmd/fvs2d/manager.go:834-863 | a second prune removes nothing and finds the same changes |
| StateDiff.SameFileEntry | cmd/fvs2d/manager.go:720-730 | compares size, mode, link and the list of blocks, and nothing else |
| StateDiff.Diff | cmd/fvs2d/manager.go:757-782 | the reply holds, strictly sorted by path, a change for exactly the paths that one list alone lists, or whose entries last listed differ, with the right sizes |
| StateDiff.LastListedCounts | cmd/fvs2d/manager.go:757-764 | a path is known exactly when it is listed, with the entry last listed |
| StateDiff.DiffLeadsFromTo | cmd/fvs2d/manager.go:766-780 | applied to one state's paths the diff gives the other's |
| StateDiff.ListedExactly | cmd/fvs2d/manager.go:766-775 | a path of both states is listed exactly when its entries differ in size, mode, link or blocks |
| StateDiff.UnlistedLooksAlikeExactly | cmd/fvs2d/manager.go:720-775 | a path of both states that is not listed looks alike in both, mounted, exactly when the kinds agree |
| StateDiff.DiffDeltasAddUp | cmd/fvs2d/manager.go:766-780 | the deltas add up to the difference of the total sizes |
| StateDiff.DiffIsAntisymmetric | cmd/fvs2d/manager.go:766-781 | swapping the states swaps ADDED with REMOVED and negates every delta, in the same order |
| Ordering.StrictlySortedUnique | cmd/fvs2d/manager.go:781 | a strictly sorted reply is determined by what it contains |
| Ordering.LessExactly | cmd/fvs2d/manager.go:781 | the order of replies: a string before its extensions, else by the first character that differs |
| Rendering.RenderInjective | cmd/fvs2d/fuse.go:63-68 | different paths are written differently, so sorting by the written path is strict |
| Rendering.RenderJoins | cmd/fvs2d/fuse.go:63-68 | paths are written with a slash between their components |
| Limits.EmptiedDirStays | cmd/fvs2d/fuse.go:581-604 | a directory that lists as empty but holds a marker, which removing it trips over |
| Limits.FailedUnlinkHides | cmd/fvs2d/fuse.go:590-595 | a state and a failing call in which unlinking a file reports an error and hides the file |
| Limits.FailedMkdirUncovers | cmd/fvs2d/fuse.go:503-530 | a state and failing calls in which a failing `Mkdir` shows a removed file again |
| Limits.ReadInPartsOnly | cmd/fvs2d/tree.go:121-150 | a file and a store in which two adjacent reads succeed and the longer read fails |
| Limits.MixedBlockSizesMisread | cmd/fvs2d/tree.go:363-413 | a stack of two block sizes, of which a file of the lower layer is read wrongly |
| Limits.RenamedDirLeavesLower | cmd/fvs2d/fuse.go:636-660 | renaming a directory with a lower child leaves that child to `stat` but not to a walk |
| Limits.RenamedDirExample | cmd/fvs2d/fuse.go:636-660 | a good state in which that rename is accepted |
| Limits.RenameOverLowerMerges | cmd/fvs2d/fuse.go:642-660 | renaming over a non-empty lower directory leaves its content visible |
| Limits.RenameOverLowerExample | cmd/fvs2d/fuse.go:642-660 | a good state in which that rename is accepted |
| Limits.NotOverEmptyDir | cmd/fvs2d/fuse.go:656-668 | a state in which renaming a directory over an empty one is refused |
| Limits.FileOverDirIsLost | cmd/fvs2d/tree.go:344-349 | a higher layer's file does not override a lower directory that is listed with its content |
| Limits.OpaqueHidesBelowExactly | cmd/fvs2d/tree.go:382-392 | an opaque marker hides everything below its directory exactly when that is not the root, or nothing is there |
| Limits.ReplacedByDirUnreported | cmd/fvs2d/manager.go:834-849 | a file replaced by a directory is unreported, its bytes unaccounted, and pruning brings it back |
| Limits.KindChangeUnreported | cmd/fvs2d/manager.go:720-730 | an entry whose kind alone changed is no change |

## Left out

- MountRuns.Serve: is about requests that keep the state good, with markers that close and rollbacks
  that succeed. `MountRuns.Handle` says what the others leave; nothing is said of requests after them.
- Sessions.Session: the same; and stacks in which a file lies below a non-directory are mounted
  (`Sessions.MountStack`) but not served and committed.
- UnionFs.UnionFs.WriteThrough: stands for the writes, truncations and permission changes that go
  through an open upper file; partial writes and open handles on removed files are not modelled.
- UnionFs.UnionFs.constructor: the operations are about good states only; a missing lower tree is not
  modelled, since every caller passes one.
- CommittedFiles.StackLeavesOk: takes every file to fit the block size of the mount, or to have the sizes
  of its blocks recorded; `BlockReads.FixedReadsExactly` says what the others are read as.
- Commit.CommitUpper: the commit itself belongs to another package; this one stores a block for each file.
- BlockReads.ReadAt: a length whose buffer cannot be allocated makes the source panic. No caller asks
  for one; such lengths are excluded.
- MountDiffWalk.DiffMount: the upper directory is taken not to change during the walk, though the
  source does not hold the mount's lock; after an error only the invariant is stated.
- MountDiffProofs.ReportIsDifference: excludes lower FIFOs and symlinks without a target, which
  `entryUnchanged` compares as regular files.
- TreeCache.EveryRunKeepsInv: each critical section is one step; mount ids are fresh; unmounting the
  kernel mount is left out, since neither its success nor its failure changes the registry.
- Streaming.SendFile: errors of the receiving stream and cancelled requests are not modelled; both stop
  the loop earlier.
- Primitive calls on the upper directory succeed or fail without effect; a failed call does not damage it.
- Permissions beyond the mode compared by the mount diff, those of marker files and directories,
  ownership, timestamps, inode attributes and clearing of privileged bits.
- `Lookup`, `Getattr` and `Readlink`: they answer from `stat`.
- `Setattr`: it copies the file up and then changes mode, owner, times or size by path; not modelled.
- Client names that start with `.wh.`: the source accepts them and they then act as markers.
- Interning of equal block ids while building a tree: it replaces an id by an equal one.
- gRPC and generated code, start-up, authentication, error mapping, the path guard, probes, paging of
  commits and parsing of selectors and addresses: plumbing or easy.
- The `fvs2/repo` and `core` packages: a commit is its list of entries, a block store a partial map from
  ids to bytes on which all stores agree.
