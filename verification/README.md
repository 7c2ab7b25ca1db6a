# fsmnt: scanner, readers, namespace

A Dafny model of the parts of fsmnt that decide what is on a medium and where
it is reached, with proofs about whole runs of them:

* **The media scanner.** `ScanModel` is the scanner's state machine on values:
  one step per position of the stride grid. It confirms ext starts, demotes
  journalled copies into runs, folds backup superblocks into the filesystem
  they name, promotes a demoted start a backup vouches for, and suppresses
  other hits inside known extents. `ScanEngine` is the same machine as a class
  with mutable fields, each method proved to be the step of `ScanModel`.
  `ScanPass` is the chunked loop over a medium of any size whose reads may come
  up short, be interrupted or fail; it classifies each position with the bytes
  its own chunk holds, and what those bytes show is a world every run theorem
  holds of. `MediumWorld` says what a position shows: ext superblocks are
  parsed from bytes (`ExtSuperblock`), all else is a function of the bytes it
  looks at (the `Probes` record), and `ExtTable` is how the source judges a
  group descriptor and a root inode. `ChunkBoundaries`, `ScanOrder` and
  `Promotion` set the scan against media written out byte by byte
  (`Specimens`), `ScanReads` says what it makes of failing reads.
* **From hits to something openable.** `Layout` numbers hits three ways and
  looks ordinals up; `Readers` is the reader stack under an opened filesystem;
  `HeadAbsent` joins the two for filesystems whose head the medium lacks.
* **The mount namespace.** `Paths` normalises and canonicalises path strings;
  `MountTree` is the namespace on component lists; `Namespace` is the class
  that keeps filesystems under path strings, each method proved to answer as
  `MountTree` does; `Fstab` finds the volumes an fstab names and attaches them.
* **Smaller searches.** `Members` gathers the devices of a multi-device
  filesystem, `GptEntry` reads one GPT entry with whole sectors (sections 5.3.2
  and 5.3.3 of the UEFI Specification), `SizeExpr` parses and prints sizes.

Integers are unbounded; where the source's 64-bit width shows, saturating and
checked arithmetic are written out (`Machine`). An index out of bounds or a
division by zero in the source is a `Panicked` error here. Media, drives and
candidate volumes do not change while they are read.

Where the code and its documentation or its evident intent differ, the code is
modelled, a lemma shows the difference on a concrete family of inputs, and
another gives the exact condition under which the two agree:

* A chunk boundary shows at a position iff its chunk stops short of a group
  descriptor that refuses the start there; with the scanner's own chunk size
  there is a medium whose report then lists a filesystem that one scan of the
  whole would not (`ChunksShowTheMediumIff`, `ChunkBoundaryCanShow`), and none
  of up to 64 MiB (`SmallMediaAreScannedWhole`).
* A superblock whose window ends between its state and its feature words is an
  index out of bounds (`PanicFreeIff`).
* Copies are documented as listed in offset order; on every medium they are iff
  the stride divides 1024, or is within 1124 of 2^64
  (`CopiesAreInOrderIffStrideDividesLeadIn`).
* A lone backup can imply the start of a run of copies of another UUID, and of a
  filesystem of another UUID if that was put back after its root inode alone
  refused it (`PromotionCanContradict`, `NoOrphanContradictsAStart`).
* Reads past the given length are documented as never attempted; they are kept
  to it iff the last chunk ends within it, which for lengths below 64 MiB means
  a medium no longer than the length (`ReadsStayWithinIff`,
  `ShortLengthIsKeptIff`).
* A refused read leaves the window's remembered position stale
  (`RefusedHeadPoisonsTheNextRead`, `StepIsPlain`).
* A mount point is checked where it will be attached iff its canonical path
  does not begin with a letter and a colon (`DriveLetterEscapesTheCheck`,
  `CanonicalPathIsIdempotentIff`).
* "Shallow before deep" is decided before canonicalising, so `.` and `..` can
  reverse it (`DotsBreakCoherence`, `RawDepthIsDepthIff`); whatever the mount
  points look like, a composition stays coherent iff each attachment it accepts
  fits (`ComposedFstabIsCoherentIff`).
* A GPT entry on sectors below 127 bytes can need a third sector
  (`TwoSectorsAlwaysSufficeIff`).

## Model

| member | source | states |
|---|---|---|
| `ExtSuperblock.CopyOffsetAtLeast1024` | crates/fsmnt-parser-core/src/boot_sector/ext.rs:212-224 | every copy's geometry puts it at least 1024 bytes into its filesystem |
| `ExtTable.RootInodeIsInItsTableIff` | crates/fsmnt-parser-core/src/boot_sector/ext.rs:511-525 | a structural descriptor puts the root inode inside its inode table iff the group does not have a single inode that fills a block |
| `StableSort.SortByIsStable` | src/scan.rs:742-747 | sorting by offset is ordered, a permutation, and keeps equal offsets in scan order |
| `ScanInvariants.CopyKeeps` | src/scan.rs:549-586 | recording a refused primary keeps every scanner invariant |
| `ScanInvariants.DetectKeeps` | src/scan.rs:438-539 | recording what a position shows keeps every scanner invariant |
| `ScanInvariants.PromoteKeeps` | src/scan.rs:650-665 | promoting a demoted start keeps every scanner invariant |
| `ScanInvariants.LoneIsNew` | src/scan.rs:674-716 | a backup nothing corroborates implies a start no hit of its UUID already names |
| `ScanInvariants.BackupKeeps` | src/scan.rs:590-634 | folding, promoting or listing a backup keeps every scanner invariant |
| `ScanInvariants.StepKeeps` | src/scan.rs:398-430 | so does classifying one position |
| `ScanInvariants.RunKeeps` | src/scan.rs:371-430 | so does any run over increasing positions |
| `ScanTheorems.NoOrphanContradictsAStart` | src/scan.rs:590-716 | over any run a lone backup implies a recorded ext start only if the two have different UUIDs and the medium refused that start; and if the start is listed as a filesystem, only its root inode refused it and a backup listed under it names it |
| `ScanTheorems.BackupIsListedAloneIff` | src/scan.rs:590-634 | a backup that is met is listed on its own iff no ext filesystem, and no run or lone backup of its own UUID, stands at the start it names; otherwise one of those lists it |
| `ScanTheorems.FoldingIsUnanimousAndUnique` | src/scan.rs:599-633 | every folded copy's own geometry and group name its hit's signed start; a lone hit has a start xor an absent head; no two lone hits share UUID and start |
| `ScanTheorems.BackupGroupIsGenuine` | src/scan/hit.rs:86-93 | the group a hit offers to open by is that of a backup the run met, listed under the hit, whose geometry names the hit's start |
| `ScanTheorems.MountabilityIsJustified` | src/scan/hit.rs:42-53 | a mountable hit is a non-ext detection, a start the medium establishes, or has a backup that computes its offset; a refused start is mountable only if the root inode alone objected and a backup vouches |
| `ScanTheorems.MountOffsetIsOnTheMedium` | src/scan/hit.rs:42-78 | a mount offset lies on the medium and excludes an absent head |
| `ScanTheorems.EvidenceIsConserved` | src/scan.rs:590-634 | every backup superblock met is accounted for exactly once, as a lone hit or inside one hit, and nothing else is |
| `ScanTheorems.RefusedPrimariesAreCounted` | src/scan.rs:549-586 | the counts of all runs and promoted hits add up to the refused primaries not dropped inside their own filesystem |
| `ScanRefusals.EachRefusedPrimaryHasOneHome` | src/scan.rs:549-586 | each of those primaries lies under exactly one hit: a run of its UUID that spans it, or its own start put back |
| `ScanRefusals.EveryHomeCountsItsOwn` | src/scan.rs:549-586 | every run counts exactly the primaries that lie under it, and every promoted hit its one |
| `ScanTheorems.WatermarkIsExact` | src/scan.rs:438-484 | at every step a position is below the watermark iff a recorded sized hit contains it |
| `ScanTheorems.NonExtIsReportedIffUnclaimed` | src/scan.rs:448-484 | a volume or credible table is in the final report iff no extent recorded before it contains it |
| `ScanWatermark.ExactPromote` | src/scan.rs:650-665 | promotion keeps the watermark exact |
| `ScanWatermark.ExactRun` | src/scan.rs:371-430 | every run keeps the watermark exact |
| `MediumWorld.MediumIsSane` | src/scan.rs:502-539 | what a medium shows always meets the assumptions of the run theorems |
| `MediumWorld.ChunksAreSane` | src/scan.rs:398-430 | so does what the chunks of any scan show, wherever they end |
| `MediumWorld.ChunkVerdict` | crates/fsmnt-parser-core/src/boot_sector/ext.rs:438-481 | a chunk's verdict on an ext primary differs from the medium's iff its descriptor lies past the chunk and the medium refuses it, and then the chunk accepts it |
| `MediumWorld.ChunkFindsIff` | src/scan.rs:798-808 | bytes in hand that reach the probe tail show what the whole medium does iff they do not stop short of a refuting descriptor, and where they do they show a start |
| `Media.ReadChunk` | src/scan.rs:343-359 | fills the buffer with the medium's bytes from the offset, in full unless the medium ends, through any short reads and interruptions, and fails iff a read it made failed |
| `ScanEngine.ScanState.PushHit` | src/scan.rs:668-671 | appends hit and UUID together |
| `ScanEngine.ScanState.RecordPrimaryCopy` | src/scan.rs:549-586 | is the model's copy recording |
| `ScanEngine.ScanState.Promote` | src/scan.rs:650-665 | is the model's promotion |
| `ScanEngine.ScanState.RecordBackup` | src/scan.rs:590-634 | is the model's backup recording, on any window that shows what the medium shows |
| `ScanEngine.ScanState.RecordExt` | src/scan.rs:502-539 | is the model's ext recording, on a start that counts as established if its refuting root inode cannot be read |
| `ScanEngine.ScanState.RecordDetected` | src/scan.rs:438-484 | is the model's recording of what was found |
| `ScanEngine.ScanState.Classify` | src/scan.rs:398-430 | is one model step whatever the reads do, but for sparing a start whose refuting root inode cannot be read, and panics exactly where a superblock window is cut |
| `ScanEngine.ScanState.IntoHits` | src/scan.rs:742-747 | every hit recorded and no other, by ascending offset, hits at one offset in the order they were recorded |
| `ScanEngine.RootInodeReadsAsADirectory` | src/scan.rs:761-794 | through reads that do not fail, whether the root inode on the medium is a directory; a failed read refutes nothing |
| `ScanPass.GridIsExact` | src/scan.rs:264-321 | the positions are exactly the multiples of the stride below the end, each once, ascending |
| `ScanPass.ChunkCapacity` | src/scan.rs:332-340 | every capacity the scanner chooses exceeds lead-in plus probe tail |
| `ScanPass.ChunkShows` | src/scan.rs:398-430 | a chunk with the lead-in and the tail in hand shows in all three probes of a position what the world of the scan's chunks holds |
| `ScanPass.ChunkAdvances` | src/scan.rs:277-303 | a filled chunk settles at least one new position with its probe tail or is the last, and one that cannot means the grid is exhausted |
| `ScanPass.VisitedReach` | src/scan.rs:277-303 | on a medium no longer than the length, every visited position is classified with the probe tail in hand, or with all the medium has left |
| `ScanPass.ClassifyChunk` | src/scan.rs:309-316 | classifies each grid position of a chunk once, in order, or stops at a cut superblock |
| `ScanPass.ScanChunk` | src/scan.rs:277-317 | reads one chunk and leaves the rest of the grid to be done, stops at a cut superblock, or names the offset of a chunk that cannot be read |
| `ScanPass.ScanInChunks` | src/scan.rs:264-321 | for every capacity above lead-in plus tail, every medium and whatever its reads do, the scan terminates: with the offset of a chunk that could not be read, or having classified exactly the grid, each position once with the bytes of its own chunk, sparing only starts whose refuting root inode could not be read; if no read fails, nothing is spared |
| `ScanPass.ScanMedia` | src/scan.rs:264-321 | a zero stride is refused; otherwise the scan is that scan with the scanner's own capacity |
| `ScanPass.ScanIsSane` | src/scan.rs:398-430 | whatever is spared, what a scan goes by meets the assumptions of the run theorems |
| `ScanReads.FailedReadsHideNoStart` | src/scan.rs:755-794 | failing reads leave every established start in the report, and put every spared one there |
| `ScanReads.ReadsStayWithinIff` | src/scan.rs:258-260 | no chunk ends past the given length iff the scan goes by no byte past it |
| `ScanReads.ShortLengthIsKeptIff` | src/scan.rs:332-340 | with the scanner's own capacity a length below 64 MiB is kept to iff the medium is no longer |
| `ChunkBoundaries.ChunksShowTheMediumIff` | src/scan.rs:288-316 | the scan's chunks show the whole medium at every visited position iff none stops short of a refuting descriptor |
| `ChunkBoundaries.ChunkingIsInvisible` | src/scan.rs:264-321 | where nothing is hidden the report is that of one scan over the whole medium |
| `ChunkBoundaries.SmallMediaAreScannedWhole` | src/scan.rs:332-340 | so is every report of a medium of up to 64 MiB |
| `ChunkBoundaries.EdgeSafeIff` | src/scan.rs:325-340 | edge safety, that no refuting descriptor lies past the probe tail, is exactly that no chunk holding the tail gives another verdict |
| `ChunkBoundaries.EdgeSafeIsInvisible` | src/scan.rs:325-340 | every report of a medium that is edge safe where it is visited is that of the whole, whatever the capacity |
| `ChunkBoundaries.HiddenStartIsReported` | src/scan.rs:502-539 | every start whose refutation its chunk stops short of is in the report as a filesystem |
| `ChunkBoundaries.HiddenTableShows` | src/scan.rs:502-539 | a hidden start whose table refuses it is in the report and not in that of the whole medium |
| `ChunkBoundaries.EqualReportsHideOnlyListedStarts` | src/scan.rs:502-539 | if the two reports are equal, every hidden start is refused by its root inode alone and listed by both |
| `ChunkBoundaries.ChunkBoundaryCanShow` | src/scan.rs:325-340 | a medium whose report, with the scanner's own chunk size, lists a filesystem at 0 that the report of the whole medium does not |
| `ChunkBoundaries.StructureIsNotBelieved` | crates/fsmnt-parser-core/src/boot_sector/ext.rs:577-633 | probes that judge descriptors as the source does are such as that medium asks for |
| `ScanOrder.CopiesAreInOrderIffStrideDividesLeadIn` | src/scan/hit.rs:27-29 | every report of every medium, whatever reads fail, lists its copies in offset order iff the stride divides 1024 or is too large for a second position to have a copy ahead |
| `ScanLimits.EstablishedStartIsReported` | src/scan.rs:502-539 | an ext start the medium establishes is in the final report as a filesystem |
| `ScanLimits.UnconfirmedTableIsNeverReported` | src/scan.rs:502-539 | one whose table is unconfirmed never is |
| `ScanLimits.PanicFreeIff` | crates/fsmnt-parser-core/src/boot_sector/ext.rs:233-281 | no medium of a size can panic the scan iff no visited position, nor the place 1024 bytes before it, leaves 1116 to 1123 bytes |
| `ScanLimits.SectorsArePanicFree` | src/scan.rs:264-321 | media and positions in whole multiples of 64 bytes never do |
| `Promotion.PromotionCanContradict` | src/scan.rs:650-716 | with any probes that judge starts as the source does and take the medium for no other format, its report lists an ext filesystem and a lone backup of another UUID that implies the same start |
| `Promotion.StructureDoubts` | crates/fsmnt-parser-core/src/boot_sector/ext.rs:511-549 | such probes believe its descriptor and find no directory where that puts the root inode |
| `Readers.GapReadIsExact` | crates/fsmnt-device/src/leading_gap_reader.rs:168-190 | bytes come only from the carried part at the offset the gap puts them, reads of the head fail, and an empty read means no room or the end |
| `Readers.LeadingGapReader.Seek` | crates/fsmnt-device/src/leading_gap_reader.rs:192-206 | seeks within the volume including its head, or refuses without moving |
| `Readers.LeadingGapReader.Read` | crates/fsmnt-device/src/leading_gap_reader.rs:168-190 | is the volume's read, changing position and buffer only by what was served |
| `Readers.PartitionReader.Seek` | crates/fsmnt-device/src/partition_reader.rs:115-160 | is the window's seek, with the `i64` limits |
| `Readers.PartitionReader.Fetch` | crates/fsmnt-device/src/partition_reader.rs:69-113 | seeks underneath only when the remembered position differs |
| `Readers.PartitionReader.Read` | crates/fsmnt-device/src/partition_reader.rs:69-113 | is the window's read step |
| `Readers.StepIsPlain` | crates/fsmnt-device/src/partition_reader.rs:69-160 | from a coherent state an operation answers as a plain cursor, and stays coherent iff it is not a refused read away from the remembered place |
| `Readers.SkippingSeeksIsInvisible` | crates/fsmnt-device/src/partition_reader.rs:69-160 | over any unspoiled interleaving of reads and seeks the whole trace is the plain cursor's |
| `Readers.UnspoiledWhenReadsSucceed` | crates/fsmnt-device/src/partition_reader.rs:69-160 | any interleaving in which no read fails is unspoiled |
| `Readers.SpoiledReadIsServedElsewhere` | crates/fsmnt-device/src/partition_reader.rs:69-113 | after a spoiling read, going back to the remembered place serves the place of the failed one |
| `Readers.RefusedHeadPoisonsTheNextRead` | crates/fsmnt-device/src/partition_reader.rs:69-113 | on a freshly opened volume, one refused read of an absent head makes the next good read fail |
| `HeadAbsent.ListedCopyNamesTheGap` | src/scan.rs:599-606 | on every scan, each copy listed under a head-absent hit has geometry naming the gap plus its place |
| `HeadAbsent.NegativeOffsetIsRight` | src/open_image.rs:653-691 | opened with the reported gap, every listed copy is served byte for byte at the offset its geometry names, and every read of the head is refused |
| `HeadAbsent.SeekReachesCopyIff` | crates/fsmnt-device/src/partition_reader.rs:115-160 | a seek reaches such an offset iff it fits in `i64` |
| `Layout.HitEntries` | src/cli/scan.rs:133-150 | is the report's numbering |
| `Layout.LayoutFromHits` | src/layout/media.rs:104-139 | is the layout's numbering |
| `Layout.NumberingsAgreeIff` | src/layout/media.rs:104-139 | rows and mountable hits always carry the same dense numbering and offsets; the layout does too iff no hit has both a mount offset and an absent head |
| `Layout.FindIsMountable` | src/layout/image.rs:311-348 | looking up ordinal k gives the k-th mountable hit's entry, and nothing beyond the last |
| `Layout.AvailableEndsWithinIff` | src/layout/mod.rs:150-168 | a non-empty available extent ends within the medium iff offset plus size does not saturate |
| `Layout.ScannedHitsAreOneSided` | src/scan/hit.rs:111-115 | every scan's hits have one side, and mount offsets on the medium |
| `Layout.ScannedOrdinalsResolve` | src/layout/image.rs:311-348 | for every scanned medium each ordinal the report prints locates the hit it numbered, and any other is refused with the count |
| `Layout.ScannedExtentIsOnTheDrive` | src/layout/drive.rs:300-317 | the extent of a scanned ordinal lies on the drive iff offset plus size does not saturate |
| `Paths.Canonicalize` | crates/fsmnt-core/src/namespace.rs:386-414 | the loop computes the canonical path |
| `Paths.FastPathIsSlowPath` | crates/fsmnt-core/src/namespace.rs:386-414 | the shortcut for ordinary paths is what resolving the components gives |
| `Paths.CanonicalPathIsCanonical` | crates/fsmnt-core/src/namespace.rs:386-414 | the result is the resolved names joined, with no empty, dot or backslash part |
| `Paths.CanonicalPathIsIdempotentIff` | crates/fsmnt-core/src/filesystem.rs:535-551 | canonicalising twice is once iff the result does not begin with a letter and a colon |
| `Paths.BelowIsProperPrefix` | crates/fsmnt-core/src/namespace.rs:420-423 | on canonical paths the string test is proper component prefix |
| `Paths.AtOrBelowIsPrefix` | crates/fsmnt-core/src/namespace.rs:416-418 | and at-or-below is component prefix |
| `Paths.RelativeRebuilds` | crates/fsmnt-core/src/namespace.rs:103-107 | mount point and relative part rebuild the path |
| `MountTree.DeepestIsUnique` | crates/fsmnt-core/src/namespace.rs:96-113 | exactly one answer is the longest attached prefix |
| `MountTree.ListingIsMetadata` | crates/fsmnt-core/src/namespace.rs:192-213 | a listing names every child that can be looked up, each as looking it up shows it, and no other but one its filesystem cannot read |
| `MountTree.OpenedListingIsReadDir` | crates/fsmnt-core/src/namespace.rs:268-288 | listing an opened directory is listing its path, errors included |
| `MountTree.CoherentIffQuestionsAgree` | crates/fsmnt-core/src/namespace.rs:217-253 | `open` shows a stored directory exactly where `try_is_dir` says yes iff the namespace is coherent |
| `MountTree.CoherentNeverFallsBack` | crates/fsmnt-core/src/namespace.rs:322-351 | in a coherent namespace nothing is made up and `open`, `metadata` and `try_is_dir` agree on every path, errors included |
| `MountTree.OwnerAfter` | crates/fsmnt-core/src/namespace.rs:53-80 | attaching hands over exactly the paths at or below the mount point that no deeper mount takes, each with the rest of it as relative path; every other keeps owner and relative path |
| `MountTree.AttachKeepsCoherenceIff` | crates/fsmnt-core/src/namespace.rs:53-80 | an accepted attachment keeps coherence iff the new filesystem has the directories it covers above existing mounts |
| `MountTree.ShallowFirstIsCoherent` | crates/fsmnt-core/src/namespace.rs:53-80 | any run of attachments in non-decreasing depth, whatever is refused, keeps the namespace coherent |
| `MountTree.CoherentThroughoutIff` | crates/fsmnt-core/src/namespace.rs:53-80 | any run of attachments stays coherent all along iff each accepted one stands on real directories and has those that mounts below it need |
| `MountTree.ThroughoutIsEveryPrefix` | crates/fsmnt-core/src/namespace.rs:53-80 | which is to say coherent after every prefix of the run |
| `MountTree.ComposedNamespaceIsCoherent` | src/fstab_mount.rs:162-223 | starting from a bare root the result is coherent and its questions agree |
| `Namespace.LongestMatch` | crates/fsmnt-core/src/namespace.rs:97-103 | finds the longest mount point at or above a path |
| `Namespace.RouteIsDeepest` | crates/fsmnt-core/src/namespace.rs:96-113 | the longest string match is the deepest mount point |
| `Namespace.MountNamespace.constructor` | crates/fsmnt-core/src/namespace.rs:37-42 | nothing is attached |
| `Namespace.MountNamespace.Route` | crates/fsmnt-core/src/namespace.rs:96-113 | is the deepest owner and the rest of the path, for every canonical path |
| `Namespace.MountNamespace.TryIsDir` | crates/fsmnt-core/src/namespace.rs:322-330 | answers as the component-list namespace, malformed paths and the backing filesystem's own errors included |
| `Namespace.MountNamespace.Open` | crates/fsmnt-core/src/namespace.rs:217-253 | answers as the component-list namespace |
| `Namespace.MountNamespace.Metadata` | crates/fsmnt-core/src/namespace.rs:342-351 | answers as the component-list namespace |
| `Namespace.MountNamespace.Attach` | crates/fsmnt-core/src/namespace.rs:53-80 | is the component-list attachment with its five refusals, leaving everything as it was when refused |
| `Namespace.CollectedIsListed` | crates/fsmnt-core/src/namespace.rs:132-162 | whatever order mount points are visited in, the collected names are exactly the next components below the path, each with the mount point exactly there |
| `Namespace.MountNamespace.DirectMountChildren` | crates/fsmnt-core/src/namespace.rs:132-162 | collects those names |
| `Namespace.Merge` | crates/fsmnt-core/src/namespace.rs:192-213 | mounted entries replace or join the stored ones, one per name |
| `Namespace.MountNamespace.ReadDir` | crates/fsmnt-core/src/namespace.rs:353-366 | is the exact overlay of backing names and mount points |
| `NamespaceLimits.DotsBreakCoherence` | src/fstab_mount.rs:229-243 | for all names, a two-line fstab whose mount points look equally deep is composed in file order into a namespace with a made-up directory |
| `NamespaceLimits.DriveLetterEscapesTheCheck` | crates/fsmnt-core/src/namespace.rs:58-72 | a component that looks like a drive letter is attached where no directory was checked |
| `Fstab.FirstCarrierIsFirst` | src/fstab_mount.rs:302-320 | the answering candidate carries the UUID, nothing before it does, and there is none only if nothing does |
| `Fstab.StoppingEarlyLosesNothing` | src/fstab_mount.rs:283-322 | once everything is found, more candidates would change nothing |
| `Fstab.DiscoverUuidAddresses` | src/fstab_mount.rs:283-322 | maps each requested UUID to the root if it carries it, else to the first candidate that opens with it, as a full search would; fails iff the candidates do and the root does not answer for all |
| `Fstab.MountEntriesAreOrdered` | src/fstab_mount.rs:229-243 | the child mounts are the entries other than `/`, as often as written, ordered by raw depth and then file order |
| `Fstab.RawDepthIsDepthIff` | src/fstab_mount.rs:229-243 | for every path, the depth sorted by is the canonical depth iff names hidden by backslashes or a drive letter make up for those its dots cost; without either, iff it has no `.` or `..` |
| `Fstab.ComposingIsAttaching` | src/fstab_mount.rs:186-222 | a composition that succeeds is the run of its entries' attachments, skipped and excused ones left out |
| `Fstab.ComposingFailsIff` | src/fstab_mount.rs:186-222 | a composition fails iff some entry that is neither skipped nor excused cannot be opened or attached where the earlier ones left the namespace |
| `Fstab.RootIsRightIff` | src/fstab_mount.rs:251-275 | only the first `/` entry is looked at, and it passes unless it names a UUID the root does not have |
| `Fstab.ComposedFstabIsCoherent` | src/fstab_mount.rs:162-223 | an fstab of straightforward mount points composes into a coherent namespace whose questions agree on every path |
| `Fstab.ComposedFstabIsCoherentIff` | src/fstab_mount.rs:162-223 | whatever the mount points, a composition that succeeds is coherent after every entry iff each attachment it accepts fits |
| `Fstab.Compose` | src/fstab_mount.rs:162-223 | checks the root entry, resolves the UUIDs and attaches the entries in order; each way of failing and of succeeding is that of the specification |
| `Members.HostDrives` | src/open_device/members.rs:227-234 | the drives are searched the primary's first, none twice, none left out |
| `Members.Assembly.Push` | crates/fsmnt-device/src/source/device_set.rs:123-135 | adds a member iff its identity is new |
| `Members.Assembly.Consider` | src/open_device/members.rs:244-268 | a partition is adopted iff it is new and is a missing required member by the same driver and format |
| `Members.Assembly.SearchDrive` | src/open_device/members.rs:243-270 | one drive's search stops when complete and otherwise passes over nothing it could adopt |
| `Members.Assembly.Discover` | src/open_device/members.rs:214-272 | adopts only enumerated required members, in step with their extents, and ends complete or with no enumerated partition outside the set that would add anything |
| `Members.AddStated` | src/open_device/members.rs:118-147 | succeeds iff every stated partition is located, readable and distinct |
| `Members.OpenRawPartitions` | src/open_device/members.rs:110-165 | on success the set starts with the primary and the stated partitions, holds no extent or member twice and only required members, and is complete or exhausted |
| `GptEntry.ReadEntry` | crates/fsmnt-device/src/disk.rs:285-322 | the bytes are the disk's 128 at the entry, straddling or not, from whole aligned sectors only |
| `GptEntry.GptPartition` | crates/fsmnt-device/src/disk.rs:220-322 | on success the disk's own bytes at array offset plus index times entry size; otherwise exactly which refusal, read failure or panic |
| `GptEntry.TwoSectorsAlwaysSufficeIff` | crates/fsmnt-device/src/disk.rs:301-312 | no entry needs a third sector iff sectors are at least 127 bytes |
| `SizeExpr.PrintedNumberReads` | src/cli/size.rs:63-70 | a printed number is digits that read back as itself |
| `SizeExpr.UnitsArePowers` | src/cli/size.rs:192-208 | bare and binary prefixes are ascending powers of 1024, decimal ones of 1000 |
| `SizeExpr.WrittenSizeIsRead` | src/cli/size.rs:155-208 | digits, whitespace and a unit in any padding mean that number of that unit, with every error |
| `SizeExpr.WrittenSectorsResolve` | src/cli/size.rs:53-60 | a written sector count resolves to its value times the sector size, or overflows exactly beyond 64 bits |
| `SizeExpr.SizeRoundTrips` | src/cli/size.rs:63-70 | parsing a printed size gives it back |
| `SizeExpr.SignedRoundTripsIff` | src/cli/size.rs:103-134 | a signed size survives printing and parsing iff it is not a negative zero |
| `SizeExpr.ParsedSizesRoundTrip` | src/cli/size.rs:112-134 | the parser never returns a negative zero, so whatever it returns round-trips |

## Left out

- ChunkBoundaries.EqualReportsHideOnlyListedStarts: one direction; two reports that both list a hidden start its root inode alone refuses, the one as established and the other as put back by a backup, are not compared further.
- The format probes other than ext and the checksums of group descriptors are functions of the bytes they read, not models of the formats; so are the judgements of descriptors and root inodes wherever a result holds for any judgement.
- `detach`, and the namespace's `read`, `read_at`, `try_exists`, `try_is_file` and file handles.
- Backing filesystems as anything but values: symbolic links, and a filesystem whose answers change between calls.
- The order in which `read_dir` returns entries, their rebased path strings and their metadata beyond kind and identity.
- Reading and parsing the fstab text; `subvol` and `subvolid` options are given parsed.
- EBR chains, GPT header validation and the fields of a GPT entry.
- `TolerantReader`, `SectorReader` and the opening of a gathered device set.
- `mount_command`, `scanned_type`, table and JSON rendering, messages and log events.
- `parse_sector_size` and the size formatters.
- Platform crates, FUSE and Dokan back ends.
- Machines whose `usize` is narrower than 64 bits.
