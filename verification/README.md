# A verified model of lilsync

lilsync keeps a folder equal on several computers without a leader. Each node has an index
(path to versioned entry), a Lamport clock, a watermark of collected deletions, and two Merkle
trees over the index. Nodes announce their roots and pull from each other along the trees. This
project models that core in Dafny and proves what it is for: nodes converge, nothing is lost on
the way, and a deletion that has been forgotten does not come back.

`dafny verify dfyconfig.toml` checks the whole project.

## How it is built

| file | what it models |
|---|---|
| `Bytes.dfy`, `Paths.dfy`, `Entries.dfy` | byte strings in `BTreeMap` order, '/'-separated paths, entries, versions and their encodings |
| `Tree.dfy`, `TreeBuild.dfy`, `TreeUpdate.dfy` | the Merkle tree: consistency with an index, derivation, incremental update |
| `Ignore.dfy`, `Validation.dfy` | glob matching and ignore rules; which names, paths and symlink targets are replicated |
| `Replica.dfy`, `ReplicaFacts.dfy` | what the operations of `FolderState` do to index, clock and watermark, as functions, and laws of these |
| `FolderState.dfy` | the class itself, each method proved against those functions, with both trees |
| `Convergence.dfy`, `Collection.dfy`, `Rescans.dfy`, `Events.dfy` | what pulls, watermark merges, collections, rescans and filesystem events achieve |
| `ChangeLists.dfy` | what the returned lists of changes tell |
| `Daemon.dfy` | root reports, announcements and the trigger of a collection |
| `Network.dfy`, `NetworkSteps.dfy`, `NetworkTrees.dfy`, `NetworkCollection.dfy` | any number of nodes as a transition system: its steps, what the trees show, and the invariant |
| `NetworkTraces.dfy`, `NetworkRuns.dfy` | what holds over every trace, and over those with careful announcements and collections |
| `NetworkScenes.dfy`, `NetworkFailures.dfy`, `NetworkHidden.dfy` | two runs in which a failed batch brings a deletion back, and the means to build them |
| `NetworkPulls.dfy` | that pulling ends in agreement |
| `WalkOrder.dfy`, `Visits.dfy`, `Reconcile.dfy`, `Sweeps.dfy` | the naive pull with all that can stop it, the reconciliation walk that refines it, and the sweep behind it |
| `Downloads.dfy`, `Fetches.dfy` | shared downloads: the coordinator, and any interleaving of fetches |
| `Base62.dfy`, `Ticket.dfy` | invitation tickets |
| `Group.dfy` | the membership ledger |

Objects that the program updates in place are classes (`FolderState`, `RootReports`,
`DownloadSlot`, `DownloadCoordinator`, `Buffer`, `GroupState`). Their methods have the program's
loops and branches and are proved against functions on values; the theorems are about those
functions, and the methods' postconditions carry them over.

## The main theorems

1. **No resurrection** (`NetworkRuns.NoResurrection`): once a node has forgotten a deletion, nothing
   older ever shows up at that path again, anywhere, in any run whose announcements are made with a
   *candid* tree and whose collections with a candid tree that shows every tombstone of the index
   (`Network.Cautious`). A tree that shows its index is both (`NetworkTrees.FreshIsFit`). One left
   behind by a failed batch stays candid until an update touches it (`CandidKept`), and is as fit for a
   collection as before if the batch brought only live entries and buried nothing (`HarmlessFailure`).
2. **Collection is safe** (`NetworkCollection.MarksCertified`): with such a tree, matching root
   reports, however old, mean that every node knows of every deletion about to be forgotten.
3. **But not with just any tree.** `NetworkFailures.Resurrection` is a run in which only a collection
   is made with a tree that does not show a tombstone, `NetworkHidden.HiddenBurial` one in which only
   an announcement is made with a tree that is not candid. In both a deletion comes back.
   `FolderStates.FailedBatchTree` and `HarmlessBatch` say exactly which batches leave a tree behind.
4. **Agreement is reached** (`NetworkPulls.EventualAgreement`): once editing stops, finitely many pulls
   are taken and then all nodes agree for ever.
5. **Hints change nothing** (`Reconciliation.ReconcileWithAdvertisedRoot`): the walk along the trees has
   exactly the result, the error and the end state of the naive pull, also if the node's own tree was
   left behind.
6. **Equal roots, equal indices** (`Tree.EqualRootsEqualIndices`), barring a hash collision.
7. **The incremental tree** (`TreeUpdate.UpdateTreeSnapshot`, `UpdateIsDerive`) describes the new index,
   and is the derived one under an exact condition.
8. **One entry, exactly** (`Convergence.OfferIsMaximumIff`): when taking an entry is a version maximum
   and when it buries something.
9. **The index says what the disk says** (`Rescans.RescanFaithful`, `RescanNotices`, `Events.EventsSay`,
   `Sweeps.PullSays`): after a rescan everywhere, after filesystem events wherever they look, after a
   pull wherever it buried something. Every difference gets a new version, and a second rescan changes
   nothing (`RescanIdempotent`).
10. **Shared downloads** (`Fetches.HowItEnded`, `HandedOnce`, `NothingLeftBehind`): each fetch ends as
    its download, its copy and the other claims call for; no temporary file is read after it was handed
    out, and none is left.
11. **Tickets** (`Base62.DecodeEncoded`, `Ticket.TicketRoundTrip`, `ContentsExactly`): exactly what is
    accepted, and what survives the round trip.
12. **A version is used once** (`NetworkTraces.VersionUniqueness`), and what a node goes on holding never
    gets older (`HeldNeverOlder`), over every trace, whatever fails and whether or not hashes collide.
13. **Membership** (`Group.ExchangeAgrees`, `TwoRecords`, `DroppedAndAdded`): exactly when exchanged
    ledgers agree, and how long a removal lasts.
14. **Validation** (`Validation.RemotePathExactly`, `TargetExactly`, `BuiltInExactly`): exactly which
    paths and symlink targets are replicated, said of the text.

## How to read the theorems

- **Strings** are their UTF-8 bytes, which is what Rust orders and hashes them by.
- **The hash** is a parameter about which nothing is assumed but that it yields 32 bytes. Theorems
  that need it name a set `play` of byte strings and assume that no two of *these* collide
  (`InjectiveOn`). `InPlay` also says that lengths and clocks fit their eight-byte fields.
- **Consistent** snapshots have exactly the direct entries, children and hash at each node that the
  index and the nodes below call for; their nodes are closed under parents and include every
  entry's parent. A consistent snapshot is determined by its set of node paths, which is where the
  derivation and the incremental update can differ: only on directories without content.
- **Clocks** are unbounded, apart from the head-room just mentioned.
- **The network** has a fixed membership and no restarts. A pull takes one batch, entries of one
  directory of the peer's present index, in one step, so a run may stop, interleave or repeat walks
  at any point. If an item fails, what came before it is stored and the tree stays as it was; later
  updates bring it up to date where they touch it, and no further (`Network.ShownAfter`). Announced
  roots and watermarks stay deliverable for ever, in any order and any number of times. Four history
  variables say what was written (`issued`), the newest entry each node ever held at a path
  (`newest`), which index its tree describes (`shown`), and which of its own writes that does not
  show yet (`hidden`). Only `shown` enters a step, as what the new tree has to describe. A `Trace` is any sequence of steps from the empty group, a `Run`
  one whose steps are `Cautious`, with a collision-free hash. A tree is candid if what it hides of the
  node's own writes is later than all of them that it shows. The invariant's heart is `Certified`:
  every node knows, or knew, everything a watermark covers.
- **The walk** runs against a peer that does not change and whose tree describes its index, with no
  other writer. It is shown equal to the naive pull, in success and in failure, a result in which
  hints do not occur; `Dominates` says what success means for each entry, `Stops` what a failure
  is due to. The node's own tree need only describe an index that the node has passed (`Trails`),
  which a failed batch leaves it with (`FailedBatchTrails`) and every walk preserves. What interleaved
  walks and local changes do is covered by the network.
- **Downloads** are stepped at every point where a fetch can be suspended; none is cancelled.

## Where the code and its documentation differ

The model follows the code.

- README.md line 212 says empty directories are not tracked. The code indexes them as `Dir`
  entries (src/scan.rs:188). A full derivation gives them a node and an incremental update does not
  (`TreeUpdate.NewDirectoryDiffers`), so two nodes with equal indices can have different roots until
  one rebuilds; `TreeUpdate.UpdateIsDerive` says exactly when.
- DESIGN.md lines 78 to 92 give leaf and directory hash formats that src/tree.rs:263-296 does not use.
- src/cli.rs:99 calls tickets 86 characters long. They grow with the endpoint list: at most 654
  for the longest, of 449 bytes. The decoder's limit is 718.

## Model

| member | source | states |
|---|---|---|
| `Entries.VersionTotal` | src/entries.rs:38-50 | versions are totally ordered: exactly one of equal, less, greater |
| `Entries.LaterWins` | src/entries.rs:38-50 | the larger clock wins, and between equal clocks the origin that a dictionary lists later |
| `Entries.EntryBytesInjective` | src/tree.rs:263-338 | the bytes an entry is hashed by determine the entry, as long as lengths and clock fit their eight-byte fields |
| `Tree.NodeBytesInjective` | src/tree.rs:277-302 | the bytes a node is hashed by determine its prefix, entries and children; entry items end where child items begin |
| `Tree.EncodingsDisjoint` | src/tree.rs:263-296 | no byte string is both an entry's and a node's encoding |
| `Tree.AncestorsPresent` | src/tree.rs:154-164 | in a parent-closed node set that has an entry's parent, every ancestor of the entry has a node |
| `Tree.SnapshotUnique` | src/tree.rs:201-223 | two consistent snapshots of one index are equal exactly if they have the same node paths |
| `Tree.SameHashSameNode` | src/sync.rs:255-264 | a node that carries its own hash, equal to the hash a consistent snapshot has at `k`, is that snapshot's node, barring a collision among the strings in play |
| `Tree.SubtreeEntries` | src/sync.rs:206-215 | two consistent snapshots with the same hash at `k` hold the same entry at every path below `k` |
| `Tree.EqualRootsEqualIndices` | src/tree.rs:147-224 | equal roots mean equal indices and equal trees, barring a collision among the strings hashed for the two |
| `TreeBuild.HashNode` | src/tree.rs:277-296 | the feeding loops hash exactly the node encoding, in name order |
| `TreeBuild.GroupByParent` | src/tree.rs:97-106 | groups a set of paths exactly by parent |
| `TreeBuild.DeriveTree` | src/tree.rs:147-224 | the derivation leaves a consistent snapshot of the included entries whose nodes are exactly the root, the ancestors of entries and the directories |
| `TreeUpdate.DirtyPaths` | src/tree.rs:56-81 | collects exactly the dirty prefixes: changed paths and their ancestors, and everything under a changed path that lost its entry |
| `TreeUpdate.UpdateTreeSnapshot` | src/tree.rs:50-145 | from any snapshot, every dirty node ends settled and every other as it was; a snapshot that described some index then describes that one brought up to date below the dirty nodes, with new nodes on the way to changed paths only; and the new index, with exactly the surviving nodes, if the changed paths cover every difference |
| `TreeUpdate.UpdateTight` | src/tree.rs:127-141 | the update never keeps a node that a full derivation would not make |
| `TreeUpdate.UpdateIsDerive` | src/tree.rs:50-224 | the incremental result is the full derivation exactly if every childless directory of the new index had a node and was not dirty |
| `TreeUpdate.NewDirectoryDiffers` | src/tree.rs:127-163 | one new directory in an empty folder: the derivation has a node for it, the update has none |
| `TreeUpdate.UpdatePruned` | src/tree.rs:108-142 | from a snapshot with exactly the inhabited nodes, any update leaves exactly the inhabited nodes again, so one update for a batch equals one per entry |
| `Paths.BelowIsUnder` | src/tree.rs:70-76 | starting with `p/` is the same as reaching `p` by taking parents, for well-formed paths |
| `Paths.NormalizeDisplay` | src/tree.rs:239-261 | stripping the slashes of a displayed prefix gives back the path |
| `Paths.NormalizeStrips` | src/tree.rs:239-241 | normalising a prefix takes away exactly the slashes around it |
| `Ignore.GlobExact` | src/ignore.rs:142-164 | the recursive matcher accepts exactly the texts that split into pieces fitting the pattern's tokens from left to right |
| `Ignore.DirectoryCandidates` | src/ignore.rs:118-125 | collects exactly the leading runs of components |
| `Ignore.LeadingIsAncestry` | src/ignore.rs:118-125 | the leading component runs of a well-formed path are the path itself and its ancestors but the root |
| `Ignore.PathSuffixCandidates` | src/ignore.rs:127-136 | collects exactly the suffixes that start at a component |
| `Ignore.MatchesIgnorePattern` | src/ignore.rs:86-116 | a rule matches as its directory-only, anchored and slash flags say |
| `Ignore.MatchesIgnorePatterns` | src/ignore.rs:76-84 | a path is excluded exactly if the last rule that matches it is not negated |
| `Ignore.RuleInPaths` | src/ignore.rs:86-136 | a rule matches exactly the paths it is about, and a directory rule also everything below them: anchored rules by the whole path, rules with a slash by the part after any slash, others by a last component |
| `Ignore.LiteralRule` | src/ignore.rs:86-136 | what that comes to for a pattern without wildcards: the path itself, everything at or below it, any path with that component, or any path ending in it after a slash |
| `Ignore.CheckIgnore` | src/ignore.rs:166-184 | a path is ignored exactly if it is not `.nolil` itself and a component is built-in ignored or the rules exclude it |
| `Validation.BuiltInExactly` | src/ignore.rs:10-20 | without rules a path is ignored exactly if one of the listed system names, or a name that begins with `._`, stands between its slashes; rules never bring such a path back, nor do they hide the rule file |
| `Validation.RemotePathExactly` | src/state.rs:830-880 | a path is accepted from a peer exactly if it is a non-empty list of ordinary names joined by slashes |
| `Validation.RemoteNotBuiltIn` | src/state.rs:846-851 | what is accepted from a peer is nothing the node would not list itself |
| `Validation.TargetExactly` | src/entries.rs:120-145 | a symlink target is accepted exactly if it is relative, does not begin with a '.' component, and has no '..' component, NUL or backslash |
| `Validation.TargetStaysInside` | src/entries.rs:120-145 | followed by names, no prefix of an accepted target leads out of the directory the link is in |
| `FolderStates.FolderState.constructor` | src/state.rs:66-114 | the first state is what a rescan leaves of the saved one, less its dead tombstones, starting from exactly the highest of saved clock, entry clocks and own mark; both trees derived |
| `FolderStates.FolderState.UpdateEntry` | src/state.rs:495-518 | ends in the state `Observe` describes: unchanged, or a new version, with everything below a replaced directory tombstoned |
| `FolderStates.FolderState.TombstoneDescendants` | src/state.rs:520-542 | tombstones the path and all live entries below it, in path order |
| `FolderStates.FolderState.TombstoneChildDescendants` | src/state.rs:544-566 | tombstones all live entries strictly below the path, in path order |
| `FolderStates.FolderState.DoRescan` | src/state.rs:330-371 | index, clock and changes as `Rescan` says, both trees derived |
| `FolderStates.FolderState.ApplyOnePath` | src/state.rs:412-493 | one event, as `ApplyEvent` says for what the disk shows, which `Events.EventReflected` and `EventFrame` say the meaning of |
| `FolderStates.FolderState.ApplyPaths` | src/state.rs:373-410 | a list of events, or a full rescan if one of them is the rule file; trees that described the index still do, and are kept pruned; a tree left behind is brought up to date below the dirty nodes |
| `FolderStates.FolderState.ApplyRemoteEntryCore` | src/state.rs:235-289 | one remote entry: every error case leaves the replica alone, success is `Accept` or no change |
| `FolderStates.FolderState.ApplyRemoteEntries` | src/state.rs:210-233 | a batch: on success trees that described the index describe the new one, and a tree left behind is brought up to date below the dirty nodes; on failure the entries before the failing one are applied and the trees are not updated |
| `FolderStates.FolderState.PruneTombstones` | src/state.rs:643-659 | removes exactly the dead tombstones and rebuilds the trees if there were any |
| `FolderStates.FolderState.MergeGcWatermark` | src/state.rs:592-620 | pointwise maximum of the watermarks, dead tombstones pruned, clock moved past the own mark and once more if anything was pruned; if so both trees are derived anew, even from trees left behind by a failed batch |
| `FolderStates.FolderState.TombstoneMarks` | src/state.rs:622-633 | for each origin with a tombstone, its highest tombstone clock, and no other mark |
| `FolderStates.FolderState.GcTombstonesForConvergedRoot` | src/state.rs:622-635 | leaves exactly the live entries; if there was a tombstone the state tree then equals the live tree |
| `FolderStates.FailedBatchTree` | src/state.rs:217-231 | after a batch stops at item `n` the old tree describes the index exactly if the replica already dominated every entry before `n` |
| `FolderStates.HarmlessBatch` | src/state.rs:217-289 | the same condition by walking the batch over the state before the call: up to the first item that fails, none would be accepted |
| `FolderStates.StaleTree` | src/state.rs:217-231 | a directory, then a file that cannot be installed: the index has the directory and the tree does not show it |
| `FolderStates.PrunedTreesAgree` | src/state.rs:225-230 | two pruned consistent snapshots of one index are equal |
| `ReplicaFacts.TombstoneAllGrows` | src/state.rs:520-566 | tombstoning is a run of local writes: every change has its own clock value, in order |
| `ReplicaFacts.RescanGrows` | src/state.rs:330-371 | so is a rescan |
| `ReplicaFacts.EventsGrow` | src/state.rs:373-493 | so is any list of events |
| `ReplicaFacts.GrowsOk` | src/state.rs:495-574 | local writes keep the node invariant: clock at or above every version and the own mark, no dead tombstone stored |
| `ReplicaFacts.OfferOk` | src/state.rs:235-289 | taking or refusing any remote entry keeps the node invariant |
| `ReplicaFacts.OfferAllNotOlder` | src/state.rs:162-178 | no sequence of remote entries makes any path older |
| `ReplicaFacts.ValidIsClean` | src/state.rs:830-880 | a path that passes validation has only non-empty components |
| `ReplicaFacts.BatchIsOffers` | src/state.rs:210-233 | a batch that succeeds gives index, clock and changes of its entries applied one at a time |
| `ReplicaFacts.BatchPrefix` | src/state.rs:217-222 | however a batch ends, the entries that got through are a prefix of it |
| `ReplicaFacts.BatchTaken` | src/state.rs:235-289 | whatever a batch has stored is as if only entries had been offered that came with their file or a usable link target and could be installed |
| `ReplicaFacts.BatchStopped` | src/state.rs:235-289 | a batch fails only at an entry with a path that is not allowed or without what it takes to install it, and the error tells a refusal of the filesystem from the rest |
| `Convergence.AcceptIffNotDominated` | src/state.rs:162-178 | an entry is accepted exactly if it is valid, not a collected tombstone, and newer than what is stored |
| `Convergence.OfferAllDominates` | src/sync.rs:267-371 | after any sequence of offers the replica dominates every entry offered |
| `Convergence.OfferAllIdle` | src/sync.rs:304-306 | offering only dominated entries changes nothing |
| `Convergence.OffersUntouched` | src/state.rs:162-178 | a sequence of offers leaves the index alone exactly if every entry in it was dominated at the start |
| `Convergence.TombstoneAllBuries` | src/state.rs:544-566 | every path on the list ends absent or a tombstone, every other path as it was |
| `Convergence.BuriedAs` | src/state.rs:520-574 | what a burial leaves is a tombstone without content, size or target, with the old mode and a version of the node's own beyond its clock |
| `Convergence.AcceptReplaces` | src/state.rs:254-288 | an accepted entry is stored as it came, everything below a non-directory is dead, nothing else changes |
| `Convergence.RemoveBuries` | src/state.rs:520-542 | a path gone from disk is dead with everything below it, nothing else changes |
| `Convergence.QuietPull` | src/state.rs:235-289 | if no accepted non-directory lies above something live, the index becomes the pointwise version maximum and the clock the maximum clock |
| `Convergence.QuietPullOrder` | src/state.rs:210-233 | and then the order and repetition of the entries do not matter |
| `Convergence.OfferIsMaximumIff` | src/state.rs:254-276 | a single entry leaves the version maximum exactly if it is not an accepted non-directory above something live |
| `Convergence.PullSources` | src/state.rs:235-289 | after a pull every entry is an old one, one of the peer's, or was issued during the pull by this node |
| `Convergence.TwoPulls` | src/sync.rs:132-189 | A pulls from B, then B from A: if the second pull is quiet both have the same index, even if the first tombstoned something |
| `Convergence.TwoQuietPulls` | src/sync.rs:132-189 | if both pulls are quiet that index is the pointwise version maximum of the two |
| `Collection.MergeOk` | src/state.rs:592-620 | merging any watermark keeps the node invariant |
| `Collection.MergeClock` | src/state.rs:592-659 | a merge removes exactly the tombstones the incoming watermark covers; the clock catches up with the mark for the node itself, and is one past that exactly if anything was removed |
| `Collection.RaisesExactly` | src/state.rs:592-600 | a merge counts as a change exactly if some mark goes up |
| `Collection.JoinLaws` | src/state.rs:592-600 | watermark merge is commutative, associative and idempotent |
| `Collection.MergeAllResult` | src/state.rs:592-659 | after any list of merges the watermark is the pointwise maximum and the index is the original less the tombstones it covers |
| `Collection.MergeOrder` | src/state.rs:592-659 | the order and repetition of merges do not matter |
| `Collection.MergeGrouped` | src/state.rs:592-659 | nor does merging two watermarks first |
| `Collection.CollectLeavesLive` | src/state.rs:622-635 | a collection leaves exactly the live entries, and changes anything exactly if there was a tombstone |
| `Replicas.CollectsUnique` | src/state.rs:622-635 | a collection has only one outcome |
| `Collection.CollectAgrees` | src/state.rs:622-635 | two nodes with equal indices that both collect still have equal indices |
| `Rescans.RescanFaithful` | src/state.rs:330-371 | every scanned path ends with exactly the scanned entry, but for the version; every other path that is neither unstable nor ignored ends absent or a tombstone |
| `Rescans.RescanNotices` | src/state.rs:495-518 | a scanned path keeps its entry, version and all, exactly if that is what was scanned; any difference in kind, hash, target, size or mode gets a version of the node beyond its clock |
| `Rescans.ObserveNotices` | src/state.rs:495-518 | observing an entry changes nothing exactly if it is filed already; otherwise it gets the next version and a change that says what was there before |
| `Rescans.ObserveBuries` | src/state.rs:495-518 | when something else takes the place of a directory, everything below it is dead |
| `Rescans.ObserveFrame` | src/state.rs:495-518 | observing a path leaves every other path alone, unless it lies below a directory that has just been replaced |
| `Rescans.RescanSpares` | src/state.rs:349-366 | unstable and ignored paths that were not scanned are left alone, unless a directory above them was replaced |
| `Rescans.RescanIdempotent` | src/state.rs:330-371 | a second rescan of the same disk changes nothing |
| `Rescans.RescanCounts` | src/state.rs:330-371 | the clock advances by the number of changes, which carry distinct consecutive versions |
| `Events.EventReflected` | src/state.rs:412-493 | after an event that is not ignored the index says what the event showed: a file or link as seen, a directory with all its contents, or nothing alive at or below a path that is gone |
| `Events.EventFrame` | src/state.rs:412-493 | everything else stays as it was, apart from what lies below a non-directory just observed; an ignored event changes nothing |
| `Events.LeafBelow` | src/state.rs:495-518 | below a file or link just observed everything is dead if it has replaced a directory, and as it was if not |
| `Events.EventIdle` | src/state.rs:412-493 | an event that shows what the index says already changes nothing |
| `Events.EventsReflected` | src/state.rs:373-410 | so it is for a list of events, wherever no later event overrides |
| `Events.EventsSay` | src/state.rs:373-493 | events that all show one disk leave the index saying what is on it wherever one of them looks and wherever it said so before |
| `Events.RulesPathScans` | src/state.rs:382-391 | an event at the rule file, anywhere in the list, makes the index say what a scan of the whole folder says |
| `Events.PathsReflected` | src/state.rs:373-410 | without one, the index says what each event showed that no later one overrides, and is as it was where no event looked |
| `ChangeLists.ChangesTell` | src/state.rs:210-410 | rescans, event lists and batches, however far they get, return changes that lead from the old index to the new one, each with what was there before |
| `ChangeLists.Reversible` | src/state.rs:495-590 | and taken back one by one from the last these changes give the old index again |
| `Daemons.RootReports.Update` | src/daemon.rs:160-169 | keeps the report with the larger clock; a tie goes to the newcomer |
| `Daemons.RecordAllLatest` | src/daemon.rs:160-169 | in whatever order announcements arrive, the report kept was made by its origin and no received one has a larger clock |
| `Daemons.RecordAllLast` | src/daemon.rs:160-169 | the report kept is that of the last announcement with the largest clock, if any is as late as the one kept before |
| `Daemons.KeptIsLast` | src/daemon.rs:160-169 | so from the start of a node on, whose report is kept for exactly the origins it has heard of |
| `Daemons.RootReports.AllActiveMatch` | src/daemon.rs:171-177 | true exactly if every listed peer has a report with this root |
| `Daemons.HandleAnnouncement` | src/daemon.rs:685-724 | ignored unless the origin is the authenticated peer, another node and active; otherwise watermark merged, then root recorded; also with trees left behind by a failed batch |
| `Daemons.Absorbed` | src/daemon.rs:790-810 | whatever is announced, each mark becomes the higher of the two, exactly the tombstones the announced watermark covers go, and the clock catches up |
| `Daemons.MaybeGcTombstones` | src/daemon.rs:846-880 | collects exactly if all active peers reported the root the tree holds, even if a failed batch has left that tree behind the index |
| `NetworkSteps.PullKeeps` | src/state.rs:210-289 | a pull, whatever it takes and however far its batch gets, keeps the group invariant |
| `NetworkSteps.LocalKeeps` | src/state.rs:330-410 | local changes and rescans keep the group invariant |
| `NetworkSteps.MergeKeeps` | src/daemon.rs:790-810 | merging a certified watermark keeps the group invariant |
| `NetworkSteps.PresentWitness` | src/daemon.rs:819-844 | the index a candid tree shows vouches for the root it announces: the node knows all of it, and of its own writes up to the latest shown, everyone knows those it leaves out |
| `NetworkSteps.WitnessExactly` | src/daemon.rs:819-844 | a tree vouches for its root exactly if everyone knows what it hides of the node's own writes, unless that is later than all of them that it shows |
| `NetworkTrees.StepTrees` | src/tree.rs:50-145 | after every step each tree describes what `shown` says: the index after a derivation, below dirty nodes the index after an update, else what it showed before; the node holds or held all of that, and it shows all of the node's own writes that not everyone knows but the hidden ones |
| `NetworkTrees.FreshIsFit` | src/state.rs:330-410 | a tree that shows its index hides nothing, is candid and shows every tombstone |
| `NetworkTrees.CandidKept` | src/state.rs:217-231 | a tree stays candid through every step, failing batches included, but an update of a tree that hides something |
| `NetworkTrees.HarmlessFailure` | src/state.rs:217-231 | a failing batch of live entries that buries nothing leaves a tree that shows every tombstone, and hides nothing more |
| `NetworkCollection.MarksCertified` | src/daemon.rs:846-880 | when all reports match the root of a candid tree that shows every tombstone of the index, every node knows everything the collection's watermark covers |
| `NetworkCollection.StepKeeps` | src/daemon.rs:685-880 | every step of the group, with late, repeated and reordered announcements and batches that fail part of the way, keeps the invariant, if announcements are made with candid trees and collections with candid trees that show every tombstone |
| `NetworkTraces.VersionUniqueness` | src/state.rs:568-574 | any two copies at any nodes and times with the same version are the same entry, over every trace |
| `NetworkTraces.StepNotOlder` | src/state.rs:162-178 | a step that leaves something at a path of a node does not make it older |
| `NetworkTraces.HeldNeverOlder` | src/state.rs:162-178 | as long as a node goes on holding something at a path it never gets older, over every trace |
| `NetworkRuns.RunInv` | src/daemon.rs:186-405 | the invariant holds in every state of every run |
| `NetworkRuns.PathsNeverOlder` | src/state.rs:162-178 | a node's entry at a path never gets older, even across a collection |
| `NetworkRuns.ForgottenEverywhere` | src/state.rs:643-659 | only tombstones are ever removed from an index, and by then every node knows of them |
| `NetworkRuns.NoResurrection` | src/daemon.rs:846-880 | once any node forgets a deletion, no node ever again holds anything older at that path, and everything written there later is newer |
| `NetworkRuns.PullLosesNothing` | src/state.rs:166-173 | a pull leaves the node knowing every entry of the batch that got through, also one it refuses as a collected deletion |
| `NetworkRuns.QuiescentAgree` | src/sync.rs:132-189 | when no pull has anything to take, all nodes have the same newest entry at every path |
| `NetworkRuns.Converged` | src/sync.rs:132-189 | and then all nodes hold the same live entries, and with equal watermarks the same index |
| `NetworkFailures.Resurrection` | src/state.rs:217-231 | thirteen steps of three nodes: a node takes over a deletion in a batch whose next item fails, collects as its tree matches the reports it holds, and pulls the deleted file back; only the collection is made with a tree that does not show every tombstone |
| `NetworkFailures.SceneExists` | src/sync.rs:312-371 | there are nodes and paths for that run, whatever the hash |
| `NetworkHidden.HiddenBurial` | src/state.rs:217-231 | seventeen steps of two nodes: a node buries a file in a batch that fails, updates its tree for other paths and announces it; the other node, whose tree shows its index, collects with that, the burial is forgotten, and the file comes back; only the announcement is made with a tree that is not candid |
| `NetworkHidden.PlotExists` | src/sync.rs:312-371 | there are nodes and paths for that run, whatever the hash |
| `NetworkPulls.PullProgress` | src/sync.rs:267-371 | every pull that stores something lowers a measure: a live entry less that can still be buried somewhere, or an entry less that some node has not heard of |
| `NetworkPulls.PullsEnd` | src/sync.rs:132-189 | when nobody edits any more, only finitely many pulls are taken, whatever announcements, deliveries and collections go on |
| `NetworkPulls.EventualAgreement` | src/sync.rs:132-189 | after any run, if nobody edits and every entry that stays gets through to every node again and again, there is a point from which all nodes hold the same live entries, and with equal watermarks the same index, for ever |
| `WalkOrder.PreorderComplete` | src/sync.rs:163-167 | a walk that skips nothing visits every node of the peer |
| `WalkOrder.EverythingListed` | src/sync.rs:163-167 | the naive pull offers exactly the peer's entries |
| `WalkOrder.ThinOffers` | src/sync.rs:284-308 | leaving out entries the replica already dominates does not change the outcome |
| `Visits.VisitAllOffers` | src/sync.rs:163-167 | a walk that succeeds has offered every entry of the nodes it visited, in its order |
| `Visits.VisitAllSome` | src/sync.rs:312-371 | however far a walk gets, what it did is a series of offers of the peer's own entries, none of which is one that cannot be applied |
| `Visits.VisitAllObstacle` | src/sync.rs:312-371 | a walk fails only at an entry of the peer with a valid path, and the error tells why: a file without content hash, a symlink with a missing or bad target, or a failed download or installation |
| `Visits.DropMiddle` | src/sync.rs:206-215 | nodes whose entries are all dominated can be left out of a walk without changing outcome or error |
| `Visits.DropSubtree` | src/sync.rs:206-215 | skipping a subtree all of whose entries are dominated leaves outcome and errors of the remaining walk as they are, and shortens it |
| `Visits.TrimStack` | src/sync.rs:493-508 | so does pushing only the children that are not done |
| `Visits.VisitedPrefix` | src/sync.rs:236-238 | visiting a node and pushing what is left of its children leaves the outcome of the walk as it is and shortens it |
| `Reconciliation.HintedNodes` | src/sync.rs:255-264 | keeps, for each prefix, the last hint whose hash is its own |
| `Reconciliation.FetchNode` | src/sync.rs:217-234 | if the peer has the expected hash at the prefix the result is the peer's node, whatever the hints are |
| `Reconciliation.SelectEntries` | src/sync.rs:276-308 | from a true answer the selection succeeds and is exactly the node's entries the replica would accept, in name order |
| `Reconciliation.Partition` | src/sync.rs:314-343 | splits off the files in order; fails exactly if one has no content hash |
| `Reconciliation.Download` | src/sync.rs:354-361 | collects the files in the order of arrival; fails exactly if a download failed |
| `Reconciliation.ReconcileEntries` | src/sync.rs:267-371 | result, error and state are exactly those of visiting the node: what is wanted and needs no download is applied, then the files as they arrive |
| `Reconciliation.QueueChangedChildren` | src/sync.rs:487-509 | pushes exactly the children whose hash differs locally, in name order |
| `Reconciliation.ChangedTrims` | src/sync.rs:487-509 | the children not pushed, judged by the node read before anything was applied, have nothing left to offer |
| `Reconciliation.ReconcileNode` | src/sync.rs:199-239 | one step leaves what the walk will end in, success or error, as it was and makes the rest shorter |
| `Reconciliation.Walk` | src/sync.rs:163-167 | the stack loop ends, with exactly the result and state of the naive pull, hints or not |
| `Reconciliation.NaivePullMeans` | src/sync.rs:267-371 | the naive pull succeeds only after offering everything the peer has, and fails only if something the peer has cannot be applied, for the reason the error tells; either way only entries of the peer that can be applied were offered |
| `Reconciliation.NaivePullDominates` | src/sync.rs:132-189 | after a successful naive pull and the sweep every entry of the peer is dominated |
| `Reconciliation.SweptDominates` | src/sync.rs:169-182 | the final sweep, with its fallback to a rescan, undoes nothing the walk has achieved |
| `Sweeps.SweptSays` | src/sync.rs:169-182 | after the sweep the index says what is on disk wherever the walk buried something, and wherever it was right before |
| `Sweeps.PullSays` | src/sync.rs:132-189 | so it does after a whole pull |
| `Sweeps.RulesSwept` | src/sync.rs:169-182 | if the rule file was buried, the sweep makes the index say what a scan of the whole folder says |
| `Reconciliation.FailedBatchTrails` | src/state.rs:217-231 | after a failed batch the tree still describes an index the node has passed |
| `Reconciliation.ReconcileWithAdvertisedRoot` | src/sync.rs:132-189 | result and state are exactly those of the naive pull, followed by the sweep on success, so neither depends on the hints; success means every entry of the peer is dominated, failure that one cannot be applied for the reason given; the tree may have been left behind, as long as it describes an index the node has passed, and does so afterwards in either case |
| `Downloads.DownloadCoordinator.AcquireSlot` | src/sync.rs:61-78 | joins the active slot or makes one and leads it |
| `Downloads.DownloadCoordinator.ClaimTarget` | src/sync.rs:80-85 | true exactly for the first claim of the target on the slot |
| `Downloads.SameTarget` | src/sync.rs:43-56 | two entries claim the same target exactly if they have the same path and version |
| `Downloads.DownloadCoordinator.ReleaseSlot` | src/sync.rs:87-107 | the last holder retires the slot and gets the shared file; nobody else does |
| `Fetches.StepKeeps` | src/sync.rs:373-451 | every step of any fetch, in any interleaving, keeps the invariant |
| `Fetches.ActiveWhileHeld` | src/sync.rs:60-108 | a slot is in use exactly while fetches hold it, and its waiter count is their number |
| `Fetches.OneLeader` | src/sync.rs:382-401 | at most one fetch downloads a content hash at a time |
| `Fetches.SomeoneLeads` | src/sync.rs:410-428 | a fetch that waits has a result to look at or a download under way |
| `Fetches.ClaimedOnce` | src/sync.rs:430-440 | two claims on one slot are for different paths or different versions |
| `Fetches.HowItEnded` | src/sync.rs:373-451 | a fetch ends with an error exactly if its slot's download failed or its own copy did, with a file exactly if its copy succeeded, and with nothing only if another fetch has claimed the same path and version on the same slot |
| `Fetches.OwnFiles` | src/sync.rs:442-451 | the file handed to a fetch is its alone: no other fetch has it, no download goes to it and it is not deleted as a shared file |
| `Fetches.HandedOnce` | src/sync.rs:442-446 | a shared file is handed out for deletion at most once, and then nobody is or will be reading it |
| `Fetches.NothingLeftBehind` | src/sync.rs:87-107 | when no fetch holds anything, every successful download was handed out for deletion exactly once and no slot is in use |
| `Base62.NumeralUnique` | src/cli.rs:245-268 | a digit list without leading zero is the numeral of its value, in any base |
| `Base62.Alphabet` | src/cli.rs:212 | the digits are the ASCII digits and letters in ascending order of their codes, and no other characters |
| `Base62.DivModInPlace` | src/cli.rs:245-253 | the in-place long division leaves the quotient and returns the remainder |
| `Base62.Encode` | src/cli.rs:216-228 | writes the base-62 numeral of the bytes read as one number |
| `Base62.Buffer.MulAdd` | src/cli.rs:257-268 | the buffer's number becomes 62 times itself plus the digit, without a leading zero |
| `Base62.DecodeDigits` | src/cli.rs:237-242 | decodes exactly the strings of digits, to the bytes of their number without leading zeros |
| `Base62.DecodeEncoded` | src/cli.rs:216-243 | decoding an encoding gives the bytes back exactly if they have no leading zero byte |
| `Base62.EncodeDecoded` | src/cli.rs:216-243 | encoding a decoding gives the string back exactly if it is "0" or does not start with '0' |
| `Base62.EncodedLength` | src/cli.rs:213-214 | two characters suffice for every eleven bits |
| `Ticket.EncodeTicket` | src/cli.rs:192-210 | refuses endpoint lists over 384 bytes, else encodes version, issuer, secret and endpoints |
| `Ticket.ParseJoinTicket` | src/cli.rs:163-190 | accepts exactly the decodable strings within the length limit whose bytes have length, version and UTF-8 in order |
| `Ticket.ContentsExactly` | src/cli.rs:154-190 | ticket bytes are read exactly as a version byte 2, 32 bytes of issuer, 32 of secret and UTF-8 text, split at commas; anything else is an invalid ticket |
| `Ticket.Utf8Exactly` | src/cli.rs:178-179 | the check accepts exactly the encodings of sequences of Unicode characters (section 3 of RFC 3629) |
| `Ticket.TicketFits` | src/cli.rs:214 | every ticket the encoder makes passes the decoder's length check |
| `Ticket.EndpointsSurvive` | src/cli.rs:180-184 | joining and splitting gives the endpoints back exactly if none is empty or contains a comma |
| `Ticket.TicketRoundTrip` | src/cli.rs:158-210 | parsing an encoded ticket gives back issuer and secret always, and the endpoints exactly if none is empty or contains a comma |
| `Ticket.RoundTrip` | src/cli.rs:287-296 | the same for the two methods run one after the other, which succeed exactly within the endpoint limit |
| `Ticket.HexInjective` | src/entries.rs:116-118 | the hex form determines the secret |
| `Ticket.HexAlphabet` | src/entries.rs:116-118 | the characters are the ASCII digits and a to f in ascending order |
| `Group.GroupState.constructor` | src/group.rs:50-88 | the node itself is in its ledger |
| `Group.GroupState.AddActivePeer` | src/group.rs:121-147 | afterwards the peer is active, and every other record is as it was; if it was not active before its clock is above all others, else nothing changes |
| `Group.GroupState.RemovePeer` | src/group.rs:149-169 | a known member other than the node itself is removed afterwards, with a clock above all others, and every other record is as it was; in the other cases nothing changes, and removing oneself is refused |
| `Group.GroupState.MergeMembers` | src/group.rs:171-203 | merges record by record, and reports change, own removal and the active peers |
| `Group.RunKeepsRecords` | src/group.rs:121-203 | over any run a member is never forgotten and its record changes only for one with a strictly larger clock |
| `Group.DroppedAndAdded` | src/group.rs:90-203 | over any run a dropped member is none of the active peers until it is added again or a record with a larger clock says so, and an added one is one until the like |
| `Group.MergeIsLatest` | src/group.rs:171-192 | merging leaves, for each member, a record at or above all received ones, and nothing invented |
| `Group.MergeOrder` | src/group.rs:171-192 | if no two distinct records of a member share a clock, order and repetition do not matter |
| `Group.TwoRecords` | src/group.rs:180-190 | two records commute exactly if they are not distinct records of one member with the same clock that the ledger would take |
| `Group.ExchangeAgrees` | src/group.rs:171-203 | two nodes that send each other their ledgers agree exactly if no member has two different records with the same clock |
| `Group.ExpulsionNoticed` | src/group.rs:187-189 | a merge that leaves the node removed by a new record reports it |
| `Group.ExpelledExactly` | src/group.rs:187-203 | exactly the merges report a removal of the node in which a record says so that is newer than the old one and all before it in the message, even if a later one takes it back |
| `Group.ChangedExactly` | src/group.rs:178-203 | a merge reports a change exactly if some record has changed |

## Left out

- The filesystem: installing, renaming, permissions, stat and stability waits. A scan, the state the disk shows for an event, and whether an installation succeeds are inputs.
- Noise, Ed25519, TCP, the connection pool, timeouts and RPC dispatch. A peer is a value that answers; a membership check is a set of active origins.
- BLAKE3. Only the bytes fed to it are modelled.
- Persistence and crashes. The constructor of `FolderState` starts from whatever was loaded.
- Restarts and membership changes in the network, where a node could reuse clock values it had not saved, or a node unknown to a collection could bring back a deletion.
- Liveness of transport and downloads: that announcements are delivered, that pulls are tried again and that waiting downloads are woken. `NetworkPulls.EventualAgreement` assumes the second.
- `parse_ignore_patterns`: rules are given in parsed form, and one call uses one set of rules.
- I/O errors inside `apply_paths` and `rescan` that return early with part of the changes applied. For `apply_remote_entries` the same exit is modelled, in the class, the walk and the network.
- `is_synced`, `PublishTracker`, `build_tree_hint`, endpoint discovery, invites, the command line, logging and the status display.
- Whether operating-system events cover what changed on disk, so that `apply_paths` and `rescan` agree.
- FolderStates.FolderState.constructor: the saved state is an arbitrary index with every entry filed under its own well-formed path; files that do not load are not modelled.
- FolderStates.FolderState.ApplyPaths: early exits on I/O errors are not modelled.
- FolderStates.FolderState.ApplyRemoteEntryCore: the sanitising of permission bits happens on installation and does not reach the index.
- Convergence.QuietPull: the absence of accepted non-directories above something live is shown sufficient for a batch; necessity is shown for a single entry in OfferIsMaximumIff, as in a batch a later entry may restore what an earlier one tombstoned.
- NetworkCollection.StepKeeps: the source has no check of the tree when a node announces or collects. `Cautious` is sufficient for the invariant and all theorems of `NetworkRuns` and `NetworkPulls`; for a single run it is not necessary, as a deletion that is collected too early comes back only if some node still holds what it deleted, which the collecting node cannot see. Which trees vouch for their root is exact (`NetworkSteps.WitnessExactly`), but speaks of what other nodes know. That neither a collection without `GravesShown` nor an announcement without `Candid` is safe is shown by `NetworkFailures.Resurrection` and `NetworkHidden.HiddenBurial`; for a collection with a tree that shows every tombstone but is not candid there is no such run here. A local change that fails half-way is not a step of the network.
- NetworkFailures.Resurrection: pulls are not tied to announcements, here as in the whole network model. In this run the pull that fails is the one that the last recorded announcement asks for; the peer has moved on by then, and the program takes what it holds (src/daemon.rs:936-944).
- NetworkPulls.EventualAgreement: `Fair` has every entry that stays get through to every other node again and again. A path that peers refuse, say with a backslash, never does, and stays on the node that indexed it; nor does one that can never be installed.
- Reconciliation.ReconcileWithAdvertisedRoot: does not cover a peer whose own tree was left behind or whose root is no longer the advertised one, a target that a concurrent walk has claimed, which this walk then leaves to the other, or other writers during the walk.
- Fetches.StepKeeps: a fetch's own copy of the file, and the removal of a partial download, are not tracked.
- Group.GroupState.constructor: duplicate ids in the saved list are not modelled, and saving always succeeds.
