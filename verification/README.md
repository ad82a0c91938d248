# Craftling, verified model

A Dafny model of two parts of Craftling and of four smaller components next to them, with proofs.

**The image writer.** `internal/squashfs` turns a stream of Create calls into a Squashfs 4.0 image, and
`internal/image/rootfs.go` feeds it a container layer tar. The repository has no reader, so the model brings
one (`Reader`), written from the Linux kernel document "Squashfs 4.0 Filesystem", sections 3.2 (inodes), 3.3
(directories), 3.4 (file data) and 3.6 (uid/gid lookup table). The main results are that reading undoes writing:
`ImageWriter.Writer.Close` for the writer, `RootfsBuild.BuildSquashfs` from a tar stream to what a reader sees.
The compressor is a pair of functions with a contract (`Blocks.Lossless`): an output shorter than its input is
non-empty and decodes to it. A compressor may also decline or fail.

| layer | modules |
|---|---|
| bytes, blocks, streams | `Bytes`, `Blocks`, `MetaStream`, `FileData`, `Inodes` |
| names, listings, paths, tree, numbers | `Names`, `Listing`, `ListingWriter`, `Paths`, `Tree`, `Numbering` |
| tables and image as functions of what was created | `Entries`, `Layout`, `IdTable`, `Region`, `Streaming`, `Finalize`, `Image` |
| reader and round trip | `Reader`, `RoundTrip`, `ImageTheorem`, `WrittenImage`, `Consequences`, `LongListings`, `WrappedStream`, `WireFormat` |
| the writer as it runs | `LinkOrder`, `Passes`, `TableWriter`, `Closing`, `ImageWriter` |
| tar to image | `TarPaths`, `TarState`, `TarImage`, `PlanWidth`, `PlanReads`, `TarReads`, `RootfsBuild` |

**The control plane.** Server rows and billing intervals are durable; the host inventory lives in memory and a crash
wipes it. `ControlPlane` is a state machine in which every write of the reconciler, every half of a registration,
every user action, disconnect, clock tick and crash is its own event, so that runs are all interleavings.
`Events` computes single events. `Capacity`, `Exactness`, `Placement` and `BillingRuns` prove what holds on all runs and
on which condition, exactly; `OvercommitRun` and `BrokenRuns` give runs from the empty system that break each
condition. `Reconciler`, `Fleet`, `Servers` and `Metering` hold the code in its own form, proved against the same functions the machine is made of.

**Next to them.** `Ipam` (guest addresses and host ports), `Hub` (agent link), `WorldGC` (orphaned worlds) and
`Whitelist` (in-game whitelist).

Where the code and its comments disagree, the model follows the code:

- `internal/squashfs/directory.go:29-35` promises as few headers as the format allows. The greedy grouping achieves
  that for ascending inode numbers (`Listing.GreedyIsMinimal`), which every directory without hardlinks has
  (`Consequences.FewestHeaders`), but not in general (`Listing.GreedyNotMinimalInGeneral`).
- `internal/squashfs/writer.go:650-654` gives files one link plus one per hardlink. The loop runs in map order, and a file is left
  with one plus the hardlinks met after it (`LinkOrder.CountsLinksAfter`), so the documented count is certain if and
  only if no hardlink names the file (`LinkOrder.CountReliable`). The count is never encoded (`Closing.CountsAre`).
- `internal/repository/host.go:59-63` says a restart keeps existing placements accounted for. It does, but not exactly:
  a registration that reads before a release and registers after it under-reports the host by what was released
  (`Exactness.LateRegistrationLoses`), and one that reads and registers at once does so too when it falls into the
  middle of a release that found the host unknown (`Exactness.ReleaseUnderwayLoses`). A registration has no other way
  to unbalance the books (`Exactness.PromptIsExact`).
- `internal/squashfs/inode.go:123-127` refuses a directory listing above 64 KiB. The length is a 32-bit number, so one that wraps
  around to a small value is accepted and does not read back (`LongListings.ReadsIffShort`,
  `WrappedStream.WrappedDirectory`).
- `internal/agent/firecracker/netalloc.go:146-147` says the scan wraps once. In a /31 or /32 that ends at 255.255.255.255 it wraps to
  0.0.0.0 (`Ipam.LastSubnet`).

Assumptions the code needs, stated in the model:

- A host's totals do not change when it registers again (`cap` in `Capacity`).
- A row write that follows a release to a known host does not fail unless the process restarts (`Capacity.Doubles`; a
  failed write when nothing was given back is harmless). `Exactness.FailedCommitOverbooks` and
  `OvercommitRun.HostSoldTwice` show the price.
- A successful provision returns a non-empty VM id.
- For billing: no meter call is lost to a crash or a failed write while row and meter disagree (`BillingRuns.Cuts`);
  `BrokenRuns.VmNeverBilled` and `BrokenRuns.BillNeverStops` show the price. Time may pass at any point.
- Command ids of the agent link are generated: a fresh one has not occurred in any earlier reply.
- Server ids are never reused, and no server is created under the key of a listed world that nobody claims while the
  reaper sweeps (`WorldGC.Reuses`; ids with distinct keys never do that). `WorldGC.ReusedKeyIsReaped` shows the price.
- The image sink holds fewer than 2^48 bytes and an image has fewer than 2^32 - 3 entries, so that no inode number
  or link count wraps.

## Model

| member | source | states |
|---|---|---|
| `MetaStream.ReadAt` | internal/squashfs/metadata.go:78-208 | Random access: for every codec that honours its contract, a record written when the stream held `a` is what a reader gets at the block offset and in-block offset taken at that moment, across block boundaries and whatever is written, sealed and emitted later. |
| `MetaStream.ReadWhole` | internal/squashfs/metadata.go:87-208 | Decoding the emitted blocks gives back the concatenation of everything written. |
| `MetaStream.FullBlockSizes` | internal/squashfs/metadata.go:113-208 | No sealed block exceeds 8 KiB on disk, so the size error of the emitter cannot occur. |
| `MetaStream.MetaWriter.Ref` | internal/squashfs/metadata.go:78-85 | The reference is (number of sealed blocks, length of the open tail) of the content so far, and its offset is below 8192. |
| `MetaStream.MetaWriter.SealCurrent` | internal/squashfs/metadata.go:110-140 | Appends exactly the stored form of the open block (raw where compression does not pay) and empties it; nothing changes when it is empty or the compressor fails. |
| `MetaStream.MetaWriter.Write` | internal/squashfs/metadata.go:87-108 | However it is cut, the blocks stay the full 8 KiB pieces of the total content and the open tail its rest; fails only when the compressor does. |
| `MetaStream.MetaWriter.Flush` | internal/squashfs/metadata.go:142-147 | Seals the tail: the blocks are those of the whole content; a no-op on an aligned stream. |
| `MetaStream.MetaWriter.BlockByteOffset` | internal/squashfs/metadata.go:167-176 | The summed frame lengths of the first k blocks. |
| `MetaStream.MetaWriter.EmitTo` | internal/squashfs/metadata.go:178-208 | The framed blocks in order; refuses exactly when some block is over 8 KiB. |
| `Blocks.LoadStore` | internal/squashfs/metadata.go:113-140 | A stored block (compressed or raw) is non-empty, never longer than its input, and loads back to it. |
| `TableWriter.RefBlock` | internal/squashfs/metadata.go:159-176 | Resolving a reference while its stream is still open already gives the final offset of its block. |
| `FileData.ReadDataAt` | internal/squashfs/writer.go:391-430 | Reading the size words and blocks of a file back gives its content. |
| `FileData.BlockCount` | internal/squashfs/inode.go:152-175 | A file of n bytes has ceil(n / block size) blocks, each with a size word that fits 32 bits. |
| `Region.ExtentsTile` | internal/squashfs/writer.go:165-188 | Extents of files are contiguous, in creation order and disjoint: each ends where the next begins and lies in the data region. |
| `Streaming.SealingKeeps` | internal/squashfs/writer.go:316-328 | Sealing the open file keeps the streaming invariant and leaves the data region equal to all extents. |
| `Streaming.AddingKeeps` | internal/squashfs/writer.go:163-294 | Adding an entry keeps the streaming invariant; earlier extents do not move. |
| `Streaming.PushingKeeps` | internal/squashfs/writer.go:364-389 | Buffering bytes, with emission of a full block, keeps the streaming invariant. |
| `Consequences.CutsDoNotMatter` | internal/squashfs/writer.go:364-430 | The whole writer state, emitted bytes included, depends on file contents and not on how they were cut across Write calls. |
| `Consequences.BlockCountReached` | internal/squashfs/inode.go:152-175 | In every finished stream the block-count check of the file encoder cannot fail; a file is refused exactly for its time, its position or its size. |
| `Consequences.RefusedLeaf` | internal/squashfs/inode.go:86-243 | An inode is refused exactly for a time outside 32 bits, a file beyond 4 GiB, a target above 65535 bytes or a device number beyond 12 and 8 bits. |
| `Inodes.ReadInodeAt` | internal/squashfs/inode.go:98-243 | Every inode that fits its fields decodes back from its bytes, for all seven kinds. |
| `Entries.Perm` | internal/squashfs/inode.go:77-82 | The low twelve bits of the mode: below 010000 the mode itself, and always congruent to it modulo 010000. |
| `Entries.PermBits` | internal/squashfs/inode.go:77-82 | Bit by bit: read, write and execute for three classes, sticky, setgid and setuid survive. |
| `Entries.DeviceNumber` | internal/squashfs/inode.go:85-96 | Accepts exactly 12-bit majors and 8-bit minors; the packed number splits back into them. |
| `Entries.EntryMtime` | internal/squashfs/writer.go:824-841 | The override decides when there is one, else the entry's own time; no time counts as zero; a time is refused exactly when it does not fit 32 bits. |
| `Entries.BlockSizeExact` | internal/squashfs/writer.go:62-76 | The block-size option accepts exactly the powers of two from 4 KiB to 1 MiB. |
| `Image.SuperRoundTrip` | internal/squashfs/superblock.go:34-57 | A reader recovers every superblock field. |
| `WireFormat.SuperblockBytes` | internal/squashfs/superblock.go:35-58 | The superblock byte by byte: "hsqs", then every field little-endian at its offset, version 4.0. |
| `WireFormat.ImageBytes` | internal/squashfs/writer.go:434-573 | The image byte by byte: the fields the superblock has in a finished image, with the literal flags and absent tables; data behind 96 bytes, then the tables in order, zero padding to a multiple of 4096. |
| `WireFormat.InodeBytesHead` | internal/squashfs/inode.go:97-107 | The first sixteen bytes of every inode, with the literal type codes. |
| `WireFormat.DirInodeBytes` | internal/squashfs/inode.go:109-136 | The directory inode at its literal offsets. |
| `WireFormat.FileInodeBytes` | internal/squashfs/inode.go:138-178 | The file inode at its literal offsets: no fragment, one word per block. |
| `WireFormat.OtherInodeBytes` | internal/squashfs/inode.go:180-243 | Symlink, device, pipe and socket inodes at their literal offsets. |
| `WireFormat.EntryBytesAt` | internal/squashfs/directory.go:86-104 | A directory entry at its literal offsets, with the two's-complement inode distance. |
| `WireFormat.FrameBytes` | internal/squashfs/metadata.go:178-208 | A metadata block behind its two-byte header, top bit set when raw. |
| `WireFormat.MetaBlocks` | internal/squashfs/metadata.go:87-108 | Metadata is cut every 8192 bytes: block number and offset are quotient and remainder. |
| `RoundTrip.EntryAgrees` | internal/squashfs/directory.go:112-135 | Type and number in a directory entry are those of the inode it leads to. |
| `Image.BlockLogPow2` | internal/squashfs/superblock.go:59-64 | The block log of 2^k is k. |
| `Listing.ListingRoundTrip` | internal/squashfs/directory.go:46-110 | Parsing the bytes of a listing yields exactly its entries: names, inode numbers, blocks, offsets and types. |
| `Listing.FirstRun` | internal/squashfs/directory.go:61-76 | The greedy group is a legal run (1 to 256 entries, one inode block, deltas within 16 signed bits) and cannot be extended. |
| `ListingWriter.ProbeRun` | internal/squashfs/directory.go:62-76 | The probe finds exactly the greedy group. |
| `ListingWriter.WriteGroup` | internal/squashfs/directory.go:78-104 | Writes header and entries of one group; the byte count grows by exactly that length modulo 2^32. |
| `ListingWriter.WriteDirListing` | internal/squashfs/directory.go:46-110 | On success the stream grew by the listing of the entries in name order, the start reference is the one before it and the count is its length modulo 2^32; it fails only for a bad name or the compressor. |
| `Listing.GreedyIsMinimal` | internal/squashfs/directory.go:57-76 | With ascending inode numbers no legal split uses fewer headers than the greedy one. |
| `Listing.GreedyNotMinimalInGeneral` | internal/squashfs/directory.go:29-35 | Without ascending numbers it can: four hardlinks with ascending names and inode numbers 50000, 60000, 90000, 30000 get three headers where two would do. |
| `Consequences.ListingBytes` | internal/squashfs/directory.go:78-104 | A listing is twelve bytes per header plus its entries. |
| `Consequences.FewestHeaders` | internal/squashfs/directory.go:57-110 | In every directory without hardlinks the written listing has the fewest headers and bytes any legal grouping could have. |
| `Names.SortByAscending` | internal/squashfs/directory.go:47-50 | Sorting distinct names gives strictly ascending byte order. |
| `Names.SortedUnique` | internal/squashfs/writer.go:610-624 | There is only one ascending order of the same elements. |
| `Names.LessMeans` | internal/squashfs/directory.go:46-60 | The order of names is byte order: the smaller byte at the first difference, a name before its extensions. |
| `Paths.Parent` | internal/squashfs/writer.go:330-348 | A valid path is its parent joined with a proper name, and the parent is the root or valid. |
| `Paths.ValidPathMeans` | internal/squashfs/writer.go:325-352 | A path is valid exactly if it starts with a slash and no component is empty, "." or "..", told byte by byte. |
| `Tree.EveryPathReached` | internal/squashfs/writer.go:583-625 | Every created path is in the tree built from the root. |
| `Tree.VisitedOnce` | internal/squashfs/writer.go:583-625 | No path is visited twice. |
| `Tree.KidsSpec` | internal/squashfs/writer.go:610-616 | The children of a directory are exactly the created paths below it, ascending by name. |
| `Passes.WireChildren` | internal/squashfs/writer.go:595-609 | Succeeds exactly when every parent exists and is a directory; children are wired in creation order. |
| `Passes.SortChildren` | internal/squashfs/writer.go:610-624 | The recursive sort yields the tree of the specification. |
| `Passes.BuildTree` | internal/squashfs/writer.go:579-625 | Both: the error condition exactly, and the tree. |
| `Numbering.NumberBijection` | internal/squashfs/writer.go:627-648 | Preorder numbers are a bijection from the non-hardlink entries onto 1..n, and the root is 1. |
| `Numbering.ParentFirst` | internal/squashfs/writer.go:631-648 | Every directory is numbered before everything in it. |
| `Numbering.KidsAscend` | internal/squashfs/writer.go:627-648 | Inside a directory, numbers ascend in name order among the children that are not hardlinks. |
| `Passes.Marks.AssignInodeNumbers` | internal/squashfs/writer.go:627-648 | The walk assigns exactly those numbers, and as parent the number of the directory (the root is its own). |
| `Passes.LinkMarks.ComputeLinkCounts` | internal/squashfs/writer.go:650-680 | Whatever order the map is walked in, every directory gets two plus its subdirectories and every other non-file one; a file gets the count of that order, `LinkOrder.CountAfter`. |
| `Passes.LinkMarks.InitLinkCounts` | internal/squashfs/writer.go:655-666 | The loop over the map: it meets every entry once, in the order it returns, and leaves at every file the count of that order. |
| `LinkOrder.CountsLinksAfter` | internal/squashfs/writer.go:657-666 | A file ends with one plus the hardlinks to it that were met after it; those met before are forgotten. |
| `LinkOrder.BothExtremes` | internal/squashfs/writer.go:650-666 | For every file some order gives one plus all its hardlinks, and some order gives one. |
| `LinkOrder.CountReliable` | internal/squashfs/writer.go:650-666 | The documented count comes out in every order if and only if no hardlink names the file. |
| `LinkOrder.TwoOrders` | internal/squashfs/writer.go:657-666 | One file and one hardlink to it: the two orders give two and one. |
| `Closing.CountsAre` | internal/squashfs/writer.go:650-680 | The counts that get encoded do not depend on the iteration order, because a file's own count, which does (`LinkOrder.CountReliable`), is never encoded. |
| `Finalize.OwnerCount` | internal/squashfs/writer.go:843-853 | The inode count of the superblock is the number of numbered entries. |
| `Passes.TotalInodeCount` | internal/squashfs/writer.go:843-853 | Counts the entries that are not hardlinks. |
| `Passes.ImageMtime` | internal/squashfs/writer.go:855-887 | The override, or the latest time of any entry, clamped; independent of the iteration order. |
| `Passes.InternIDs` | internal/squashfs/writer.go:682-713 | Interns in creation order, then the root; fails exactly when the table overflows. |
| `IdTable.InternDistinct` | internal/squashfs/idtable.go:34-47 | No id is stored twice. |
| `IdTable.Table.Intern` | internal/squashfs/idtable.go:34-47 | An id keeps its index, a new one gets the next, and it fails exactly for a new id in a full table. |
| `IdTable.Table.PackIds` | internal/squashfs/idtable.go:66-91 | The flush at every 2048th id is a no-op, and batch k starts at block k. |
| `IdTable.Table.WriteData` | internal/squashfs/idtable.go:53-103 | The emitted stream of 32-bit ids, and for each block where it will lie in the image. |
| `IdTable.Table.WriteLookup` | internal/squashfs/idtable.go:105-119 | One little-endian 64-bit offset per block. |
| `IdTable.ReadIdAt` | internal/squashfs/idtable.go:53-119 | Every index handed out reads back its id through the lookup list. |
| `Layout.BuildTablesGood` | internal/squashfs/writer.go:715-822 | After both passes every entry that owns an inode has it in the table where its position says, and every directory its listing. |
| `TableWriter.Tabler.WriteLeafInodes` | internal/squashfs/writer.go:715-729 | Pass 1 fills the stream as specified, or fails exactly where an encoder refuses (or the compressor fails). |
| `TableWriter.Tabler.ResolveHardlinks` | internal/squashfs/writer.go:463-473 | Afterwards every hardlink carries its target's number and reference. |
| `TableWriter.Tabler.DirEntries` | internal/squashfs/writer.go:747-769 | The directory entries of a directory's children, with final block offsets although the stream is open. |
| `TableWriter.Tabler.WriteDir` | internal/squashfs/writer.go:770-777 | One directory: listing, then inode, with the listing length in 32 bits as coded. |
| `TableWriter.FewChildrenUnwrapped` | internal/squashfs/directory.go:46-109 | Up to 0xE00000 children in every directory no listing length wraps. |
| `LongListings.ReadsIffShort` | internal/squashfs/inode.go:118-135 | A directory of any finished image reads back as its children if and only if its listing is shorter than 2^32 - 3 bytes. |
| `WrappedStream.WrappedDirectory` | internal/squashfs/inode.go:118-135 | A stream of Create calls, one file and 329195263 hardlinks to it in the root, that Close has an image for: the root's listing takes 2^32 + 2160 bytes, its size field says 2163, and a reader does not get the listing back. |
| `WrappedStream.LinkCreated` | internal/squashfs/writer.go:218-248 | Each of its calls is accepted and leads to the next state of the stream. |
| `TableWriter.Tabler.WriteDirs` | internal/squashfs/writer.go:731-780 | The post-order pass fills both streams as specified. |
| `TableWriter.Tabler.WriteTables` | internal/squashfs/writer.go:456-480 | All passes together give the specified tables. |
| `Closing.PrepareTables` | internal/squashfs/writer.go:443-487 | Everything Close does before emitting: on success both streams are flushed and hold the specified tables; on failure the specification fails too, or the compressor did. |
| `ImageTheorem.ReadsBack` | internal/squashfs/writer.go:434-573 | Whole-image round trip over the table passes: at every path the reader finds exactly what the context says. |
| `WrittenImage.WrittenImageReads` | internal/squashfs/writer.go:434-573 | Whole-image round trip for every finished stream of Create calls without a listing of 2^32 - 3 bytes: kind, permission bits, owner through the ID table, time, content, link target, device number, children, link count and parent; and something at a path if and only if it was created. |
| `Consequences.HardlinkSharesInode` | internal/squashfs/writer.go:218-248 | A hardlink and its target cannot be told apart in the image, inode number included. |
| `ImageWriter.Writer.constructor` | internal/squashfs/writer.go:129-161 | An empty stream over a placeholder that no reader takes for a superblock. |
| `ImageWriter.NewWriter` | internal/squashfs/writer.go:135-161 | A bad block size or a missing compressor is refused, a sink without room for the placeholder fails, anything else gives a writer over an empty stream; all three exactly. |
| `ImageWriter.Writer.BeginEntry` | internal/squashfs/writer.go:296-314 | Closed, invalid path and duplicate are answered exactly; the open file is sealed. An I/O error means a failing compressor or a sink without room for the files so far. |
| `ImageWriter.Writer.CreateFile` | internal/squashfs/writer.go:163-188 | State change and verdict, exactly; the file starts where the data region ends. An I/O error means a failing compressor or a sink without room for the files so far. |
| `ImageWriter.Writer.CreateDir` | internal/squashfs/writer.go:190-198 | State change and verdict, exactly. An I/O error means a failing compressor or a sink without room for the files so far. |
| `ImageWriter.Writer.CreateSymlink` | internal/squashfs/writer.go:200-216 | State change and verdict, exactly, with the empty target refused. An I/O error means a failing compressor or a sink without room for the files so far. |
| `ImageWriter.Writer.CreateHardlink` | internal/squashfs/writer.go:218-248 | State change and verdict, exactly, with the target check. An I/O error means a failing compressor or a sink without room for the files so far. |
| `ImageWriter.Writer.CreateCharDevice` | internal/squashfs/writer.go:250-261 | State change and verdict, exactly. An I/O error means a failing compressor or a sink without room for the files so far. |
| `ImageWriter.Writer.CreateBlockDevice` | internal/squashfs/writer.go:263-274 | State change and verdict, exactly. An I/O error means a failing compressor or a sink without room for the files so far. |
| `ImageWriter.Writer.CreateFIFO` | internal/squashfs/writer.go:276-284 | State change and verdict, exactly. An I/O error means a failing compressor or a sink without room for the files so far. |
| `ImageWriter.Writer.CreateSocket` | internal/squashfs/writer.go:286-294 | State change and verdict, exactly. An I/O error means a failing compressor or a sink without room for the files so far. |
| `ImageWriter.Writer.FlushCurFile` | internal/squashfs/writer.go:316-328 | The state with the tail block emitted and the file closed; an error means a failing compressor or a full sink. |
| `ImageWriter.Writer.EmitBlock` | internal/squashfs/writer.go:391-421 | Emits the stored form of the buffer and records its size word. |
| `ImageWriter.Writer.FileWrite` | internal/squashfs/writer.go:364-389 | Appends to the open file only; a handle that is no longer open is stale; an I/O error means a failing compressor or a sink without room for the full blocks of the file after this write. |
| `ImageWriter.Writer.EmitTables` | internal/squashfs/writer.go:489-572 | Emits tables, ID section, padding and superblock: the sink then holds the image of the parts, byte for byte. |
| `ImageWriter.Writer.Close` | internal/squashfs/writer.go:432-573 | On success the sink holds exactly the image that is a function of what was created (so it is deterministic), and, unless a listing length wraps, a reader finds at every path what was created there; it fails only when that function does, the compressor does, or the sink is too small. |
| `TarPaths.NormalizedIsValid` | internal/image/rootfs.go:600-633 | Every accepted name spells a path the writer accepts. |
| `TarPaths.SpellingIsNormalized` | internal/image/rootfs.go:600-633 | And every valid path without NUL is accepted in each of its four spellings. |
| `TarPaths.NormalizeExact` | internal/image/rootfs.go:600-636 | ".", "/" and "./" are the root; a valid path without NUL, with or without "./" in front and a slash behind, is itself; anything else is refused. If and only if. |
| `TarPaths.AncestorsOutside` | internal/image/rootfs.go:428-438 | Ancestors of something outside a directory are outside it. |
| `TarImage.ListAncestors` | internal/image/rootfs.go:574-584 | The loop collects the ancestors shallowest first. |
| `TarImage.EnsureAncestors` | internal/image/rootfs.go:568-598 | Makes exactly the missing ancestors; the parent exists afterwards; fails only for the compressor or a full sink. |
| `TarImage.PutFile` | internal/image/rootfs.go:449-467 | The file gets the whole body; an unreadable body and one beyond the budget are refused, exactly. |
| `TarImage.PutNode` | internal/image/rootfs.go:468-508 | Each flag creates exactly the planned entry; a symlink without target, a hardlink without a usable target and one to something that is not a file of the stream are refused, exactly. |
| `TarImage.PutOwn` | internal/image/rootfs.go:449-508 | The entry of a header once its parents exist, with the outcome of its flag, exactly. |
| `TarImage.PutItem` | internal/image/rootfs.go:404-439 | One header adds exactly its plan: nothing for the root, the pipeline's directory and taken paths; it fails exactly as `ItemVerdict` says, or for the compressor or a full sink. |
| `TarImage.StreamTar` | internal/image/rootfs.go:378-511 | Ends exactly as `TarVerdict` says, or with the compressor's or the sink's error, which a stream that `TarVerdict` passes meets only if its files do not fit; after success the writer holds exactly the plan of the tar, `created` is exactly its paths and closed under parents, entries and bytes are within the caps, and invalid-path and duplicate errors never occurred. |
| `TarImage.InjectInit` | internal/image/rootfs.go:513-545 | Adds the pipeline's directory and the init file with exactly the given bytes; fails only for the compressor or a full sink. |
| `TarImage.EnsureStandardMountpoints` | internal/image/rootfs.go:547-566 | Adds exactly the missing mountpoints, /tmp with mode 1777; fails only for the compressor or a full sink. |
| `RootfsBuild.OnlyInit` | internal/image/rootfs.go:428-432 | In every plan the pipeline's directory holds itself and the init file, nothing else. |
| `RootfsBuild.MissingParentUnreachable` | internal/squashfs/writer.go:595-609 | For a tracked stream, Close can object to the tree only because some parent is not a directory. |
| `RootfsBuild.OneState` | internal/image/rootfs.go:334-376 | A writer that created a plan and sealed its last file is in one state only: the image is a function of the plan. |
| `RootfsBuild.TreeShaped` | internal/squashfs/writer.go:595-609 | So the tree is accepted if and only if everything the plan creates lies in a directory the plan creates. |
| `RootfsBuild.Seal` | internal/image/rootfs.go:372-375 | Closing a writer that holds a plan: Close's outcome for the plan's only state; without a failing compressor it succeeds if and only if that state has an image and the sink takes it. |
| `RootfsBuild.AllStepsShown` | internal/image/rootfs.go:334-376 | An image of a writer that holds a plan shows every step of it and nothing else. |
| `TarReads.HeadersShown` | internal/image/rootfs.go:378-511 | From headers to reader, no plan in between: the first header that claims a path decides what is there (permission bits, owner, group, time, kind, content, target, device numbers; a hardlink is its target); directories nobody asked for are 0755, root's; missing mountpoints are added, /tmp with 01777; and nothing else is there. |
| `TarReads.TarClaims` | internal/image/rootfs.go:433-440 | The paths a stream creates are exactly those its headers name, if their type creates something, and the directories above. |
| `RootfsBuild.BuildSquashfs` | internal/image/rootfs.go:334-376 | From tar to reader: without a failing compressor the build succeeds if and only if `TarVerdict` passes the stream and the plan has an image that fits; every failure has its cause; a built image shows, path by path, what the headers say (`TarShown`), the root with 0755, every directory with exactly its children, and under /.craftling only the directory and an init file with exactly the given bytes, mode 0755, owned by root, unless a listing length wraps, which the cap of 2^20 headers rules out. |
| `PlanWidth.ItemIn` | internal/image/rootfs.go:404-509 | One header adds at most one child to any directory, its missing parents included. |
| `PlanWidth.ImageIn` | internal/image/rootfs.go:82-83 | So no directory of an image has more children than the tar has headers, plus seven. |
| `Fleet.HostRepository.RegisterReserved` | internal/repository/host.go:55-94 | A known host keeps its allocatable, a new one starts with what is not committed; matched by id, else by hostname. |
| `Fleet.HostRepository.MatchExisting` | internal/repository/host.go:105-113 | By id when given, else a host with that hostname if there is one. |
| `Fleet.HostRepository.Reserve` | internal/repository/host.go:162-186 | Answers and deducts exactly as specified, in one step. |
| `Fleet.HostRepository.Release` | internal/repository/host.go:188-204 | Gives back up to the total; unknown hosts are left alone. |
| `Fleet.HostRepository.Heartbeat` | internal/repository/host.go:115-133 | Fails exactly for unknown hosts; otherwise ready and stamped. |
| `Fleet.HostRepository.MarkDown` | internal/repository/host.go:206-222 | Only the ready flag of a known host changes. |
| `Fleet.HostRepository.MarkStale` | internal/repository/host.go:224-241 | Exactly the ready hosts silent since before the cutoff go down and are counted; nothing else changes. |
| `Fleet.HostRepository.ListReady` | internal/repository/host.go:154-160 | Exactly the ready hosts. |
| `Fleet.FittingHosts` | internal/scheduler/scheduler.go:130-146 | Exactly the hosts with enough cpu and memory, ordered by free memory, then free cpu, told in those fields. |
| `Fleet.SortMostFree` | internal/scheduler/scheduler.go:139-144 | The stable sort orders by free memory, then free cpu. |
| `Fleet.Schedule` | internal/scheduler/scheduler.go:42-64 | Undisturbed: places exactly when some ready host fits, on one that no fitting host is freer than, and takes exactly the spec from it alone. |
| `Fleet.ScheduleAmid` | internal/scheduler/scheduler.go:42-64 | While others change the inventory between attempts: a returned host accepted the reservation on the inventory of that moment after every freer candidate had refused on its own; no result means all refused; allocatable stays non-negative. |
| `Fleet.Placeable` | internal/scheduler/scheduler.go:72-88 | Exactly known and ready. |
| `Servers.GameServerRepository.UsedCapacity` | internal/repository/game_server.go:211-227 | The summed specs of the live rows assigned to a host. |
| `Servers.UsedUpdate` | internal/repository/game_server.go:244-264 | Changing one row moves the sum by that row's weight only. |
| `Servers.GameServerRepository.MarkLost` | internal/repository/game_server.go:141-156 | Only a live row still believed running is touched; its host stays. |
| `Servers.GameServerRepository.ListActiveIDs` | internal/repository/game_server.go:158-175 | Exactly the rows not deleted. |
| `Servers.GameServerRepository.ListReconcilable` | internal/repository/game_server.go:108-122 | Only rows that need work, all of them unless the limit is reached. |
| `Servers.ReconcilableMeans` | internal/repository/game_server.go:108-122 | Work is left exactly on a live row with a backup to take or one that is not settled in what is wanted; nothing settles a row that is to be deleted. |
| `ControlPlane.RequestsAreListed` | internal/repository/game_server.go:203-324 | A backup request or a wish changes that one row and nothing else; a new server is appended with no billing interval. Each puts its row on the list of rows to work on, a wish exactly unless the row is settled in it with no backup to take. |
| `Servers.AlwaysLookedAt` | internal/repository/game_server.go:124-156 | A live row that shall run is listed by the reconciler or by the health check; a lost one goes back to pending, without a VM and with its host, and so from the second to the first. |
| `Servers.GameServerRepository.ListRunning` | internal/repository/game_server.go:124-139 | Exactly the rows believed up, up to the limit. |
| `Servers.GameServerRepository.MarkRunning` | internal/repository/game_server.go:291-300 | Status running and the VM; nothing else. |
| `Servers.GameServerRepository.MarkStopped` | internal/repository/game_server.go:302-315 | Status stopped, no VM, no host; nothing else. |
| `Servers.GameServerRepository.SoftDelete` | internal/repository/game_server.go:335-346 | Status deleted, no VM, no host, hidden; nothing else. |
| `Capacity.StepKeeps` | internal/reconciler/reconciler.go:357-546 | Every event keeps the capacity invariant, except a row write that fails after its server's capacity went back to a known host (`Doubles`); one that gave nothing back is harmless. |
| `Capacity.StepKeepsIff` | internal/reconciler/reconciler.go:499-504 | Of all events, exactly such a failed write breaks the invariant, and only if the host had not lost that much before. |
| `Capacity.NoOvercommit` | internal/reconciler/reconciler.go:357-456 | On every run without such a failed write: committed capacity never exceeds a host, not even mid-step; allocatable is never negative; between steps allocatable plus committed never exceeds the total. |
| `Exactness.ExactBooks` | internal/agentlink/hub.go:130-145 | On runs with prompt registrations and without such a failed write, allocatable plus committed equals the total between steps. |
| `Exactness.BooksStep` | internal/reconciler/reconciler.go:499-504 | Where the books balance, exactly a doubling failed write breaks the bound, and exactly that or a registration that is not prompt breaks the equality. |
| `Exactness.ExactRuns` | internal/repository/host.go:82-94 | Over whole runs: the books balance at every point if and only if all registrations are prompt and no failed write doubles capacity. |
| `Exactness.PromptIsExact` | internal/agentlink/hub.go:130-145 | A registration keeps the books balanced if and only if what it read is still true and no release of that host is half done. |
| `Exactness.LateRegistrationLoses` | internal/repository/host.go:82-94 | A registration that is not prompt loses exactly what was freed since it read. |
| `Exactness.ReleaseUnderwayLoses` | internal/reconciler/reconciler.go:499-504 | Reading and registering at once in the middle of a release of a host that was unknown when released: the books end short by exactly that spec. |
| `BrokenRuns.LateRegistration` | internal/agentlink/hub.go:130-145 | A run from the start in which a late registration loses all of a host. |
| `BrokenRuns.ReleaseUnderway` | internal/reconciler/reconciler.go:499-504 | A run from the start in which an atomic registration in the middle of a stop loses all of a host. |
| `Exactness.FailedCommitOverbooks` | internal/reconciler/reconciler.go:499-504 | If the write after a release fails and the process lives on, the books exceed the host by exactly that spec. |
| `Placement.AlwaysPlaced` | internal/provisioner/remote.go:48-145 | On every run a row with a VM has a host, deleted rows hold nothing, and no call of the reconciler reaches the provisioner without a host. |
| `Placement.StoppedHoldsNothing` | internal/repository/game_server.go:302-315 | Between steps of a run in which no start of a stopped server is cut off, stopped and deleted rows hold neither host nor VM. |
| `Placement.CleanStep` | internal/reconciler/reconciler.go:381-391 | Of all events, exactly a crash or an unwritten failure between the assignment of a stopped server and its first status write breaks that. |
| `Placement.InterruptionLeavesHost` | internal/reconciler/reconciler.go:381-391 | Such an event leaves a stopped or deleted row with a host. |
| `BrokenRuns.StoppedKeepsHost` | internal/reconciler/reconciler.go:381-391 | Runs from the start that end that way: boot, stop, start again, place, assign, then a crash or an unwritten failure. |
| `Metering.OpenedOrdered` | internal/repository/billing.go:26-37 | Opening keeps intervals ordered and disjoint with at most the last one open. |
| `Metering.ClosedOrdered` | internal/repository/billing.go:39-47 | So does closing, and nothing is open afterwards. |
| `Metering.LedgerIsUptime` | internal/repository/billing.go:61-101 | For intervals faithful to a history, the ledger of a period is the number of recorded units in it. |
| `Metering.LedgerBounded` | internal/repository/billing.go:93-97 | So it is between zero and the elapsed time, and the clamp has nothing to clamp. |
| `Metering.FuturePeriod` | internal/repository/billing.go:61-101 | For a period that starts in the future the sum is minus the time until then if an interval is open, else zero. |
| `Metering.ClampNeeded` | internal/repository/billing.go:93-97 | The sum is negative, so that the clamp matters, if and only if the period starts in the future and an interval is open. |
| `BillingRuns.AgreedStep` | internal/reconciler/reconciler.go:399-405 | Of all events, exactly a crash or a failed meter write while row and meter disagree breaks "an interval is open exactly for rows with a VM"; time may pass at any point. |
| `BillingRuns.BillsFollowRows` | internal/reconciler/reconciler.go:69-86 | On every run that loses no meter call, between steps: an interval is open exactly for rows with a VM, intervals never overlap, and the ledger of any period is off the recorded time by at most the ticks between a row update and its meter call. |
| `Metering.BillingRepository.StartRunning` | internal/repository/billing.go:26-37 | Opens an interval unless one is open. |
| `Metering.BillingRepository.StopRunning` | internal/repository/billing.go:39-47 | Closes whatever is open, and nothing else. |
| `Metering.BillingRepository.LedgerSeconds` | internal/repository/billing.go:61-101 | The clamped sum over the intervals that reach into the period. |
| `BillingRuns.BillsAreExact` | internal/reconciler/reconciler.go:69-86 | On such a run the ledger of every period is exactly the recorded time if and only if no tick fell between a row update and its meter call. |
| `BrokenRuns.VmNeverBilled` | internal/reconciler/reconciler.go:400-404 | A run from the start with a crash between the row update and the meter call: a VM that runs for any number of units and is billed none. |
| `BrokenRuns.BillNeverStops` | internal/reconciler/reconciler.go:502-506 | The same on the way down: no VM, and every unit is billed. |
| `Reconciler.Reconciler.FinishStop` | internal/reconciler/reconciler.go:499-507 | Release, stopped row, closed interval: a path of the machine. |
| `Reconciler.Reconciler.FinishDelete` | internal/reconciler/reconciler.go:534-545 | Release, deleted row, closed interval: a path of the machine. |
| `Reconciler.Reconciler.DropStalePlacement` | internal/reconciler/reconciler.go:431-456 | Keeps a usable placement and changes nothing, otherwise gives the capacity back and unassigns the row, exactly. |
| `Reconciler.Reconciler.PlaceServer` | internal/reconciler/reconciler.go:407-429 | Places exactly when the fleet has room and the assignment can be written, taking the spec from that host and nothing else; otherwise the inventory is as it was. |
| `Reconciler.Reconciler.SettleServer` | internal/reconciler/reconciler.go:370-390 | An unbooted server keeps a host that can take it; otherwise it gives a stale one back and gets a freest host if there is one with room and the assignment is written. |
| `Reconciler.Reconciler.BootServer` | internal/reconciler/reconciler.go:389-404 | Running with the agent's VM and an open interval, or in error. |
| `Reconciler.Reconciler.StartServer` | internal/reconciler/reconciler.go:357-405 | Row, inventory and meter after a start, exactly: unschedulable if and only if it has to ask and no ready host has room, in error if and only if it can go on and the assignment or the agent fails, otherwise running with the agent's VM. |
| `Reconciler.Reconciler.CheckServerLiveness` | internal/reconciler/reconciler.go:194-230 | Lost exactly when the agent says so, or the host has been silent past the grace. |
| `Reconciler.Reconciler.ListWork` | internal/reconciler/reconciler.go:156-200 | A pass takes accurate copies of exactly the rows to work on, up to the limit. |
| `Reconciler.Reconciler.Hear` | internal/repository/host.go:116-132 | A heartbeat at any point of a pass: ready and stamped, as an event of the machine. |
| `Reconciler.Reconciler.Disconnect` | internal/repository/host.go:209-222 | The end of a stream at any point of a pass: not ready any more, as an event of the machine. |
| `Reconciler.Reconciler.Reconcile` | internal/reconciler/reconciler.go:312-333 | Row, inventory and meters after one pass, exactly, for start, stop, delete and nothing to do; every other row is untouched; the machine can reach the state. |
| `Ipam.NewIPAM` | internal/agent/firecracker/netalloc.go:49-101 | Gateway, MAC and port errors exactly as coded; the range is the addresses with the subnet's first bits, without the lowest and the highest for masks below 31, told by division; an empty range cannot occur; the allocator is sound unless the range ends at the last 32-bit address. |
| `Ipam.CursorStays` | internal/agent/firecracker/netalloc.go:148-155 | The 32-bit cursor stays in range except when it steps off 255.255.255.255. |
| `Ipam.Allocator.TakeIP` | internal/agent/firecracker/netalloc.go:146-162 | The address and the cursor that the bounded scan gives, for every range. |
| `Ipam.ScanIsSound` | internal/agent/firecracker/netalloc.go:146-162 | In a range that ends below 255.255.255.255 the scan finds the first free address cyclically from the cursor, fails exactly when the range is full, and keeps the cursor in range. |
| `Ipam.ScanLeavesRange` | internal/agent/firecracker/netalloc.go:148-155 | In one that ends there, the scan after the last address hands out 0.0.0.0. |
| `Ipam.LastSubnet` | internal/agent/firecracker/netalloc.go:49-162 | 255.255.255.254/31 with its gateway at .254: the second allocation is 0.0.0.0. |
| `Ipam.Allocator.TakePort` | internal/agent/firecracker/netalloc.go:164-181 | The first free port cyclically from the cursor; fails exactly when the pool is full. |
| `Ipam.Allocator.Allocate` | internal/agent/firecracker/netalloc.go:103-131 | Fails exactly when a pool is full and then rolls the address back; otherwise a fresh identity. |
| `Ipam.Allocator.Release` | internal/agent/firecracker/netalloc.go:133-144 | Returns exactly that address and port; an empty identity is ignored. |
| `Ipam.Allocator.AllDistinct` | internal/agent/firecracker/netalloc.go:27-47 | Live identities never share an address, a port or a MAC, and never take the gateway's. |
| `Ipam.MacInjective` | internal/agent/firecracker/netalloc.go:183-194 | Different addresses give different MACs, unicast and locally administered. |
| `Ipam.MacReads` | internal/agent/firecracker/netalloc.go:183-194 | The six octets: 02, 00 and the address, most significant first. |
| `Hub.RepliesCorrelate` | internal/agentlink/hub.go:282-311 | On every interleaving, a reconnect between lookup and registration included: a call waits at a connection that was set up, returns only a reply with its own id that arrived on that connection, and every such reply that arrived while it waits is in its channel or about to be. |
| `Hub.ReplyIsDelivered` | internal/agentlink/hub.go:101-113 | From any state a reply to a waiting call can be handed over and taken, and the call returns that very reply; a waiting call can always give up. |
| `Hub.CallAnswered` | internal/agentlink/hub.go:282-308 | One call from connection to answer. |
| `Hub.ReconnectBetween` | internal/agentlink/hub.go:282-296 | A host that reconnects between a caller's lookup and its registration: the call waits at the old connection, and what arrives on the new one under its id is not for it. |
| `Hub.ReplyStays` | internal/agentlink/hub.go:101-113 | A reply in the channel stays until the caller takes that very reply or gives up; duplicates change nothing. |
| `Hub.LatestConnection` | internal/agentlink/hub.go:181-201 | The registry holds the connection added last, unless that very one was removed. |
| `Hub.Registry.Add` | internal/agentlink/hub.go:181-185 | The new connection replaces the old one. |
| `Hub.Registry.Remove` | internal/agentlink/hub.go:187-195 | Removes the connection only while it is the current one. |
| `Hub.Registry.Get` | internal/agentlink/hub.go:197-201 | The current connection, if any. |
| `WorldGC.SafeKeyIdempotent` | internal/storage/store.go:67-88 | Keys are safe tokens and their own keys. |
| `WorldGC.BuildKey` | internal/storage/store.go:73-88 | The builder loop computes the key. |
| `WorldGC.ReapWorlds` | internal/reaper/reaper.go:98-137 | Removes exactly the listed, unclaimed keys whose deletion succeeds, and counts them; nothing at all without the list of live servers. |
| `WorldGC.NeverReapsLive` | internal/reaper/reaper.go:98-137 | No world of a server that is live at that moment is removed, whatever interleaves, for any ids, if no server is created under a listed, unclaimed key during a pass. |
| `WorldGC.PassRemovesOrphans` | internal/reaper/reaper.go:98-137 | A pass with both lists can remove a key if and only if it was stored and no server that was live then has it. |
| `WorldGC.HarmlessStep` | internal/reaper/reaper.go:98-137 | Of everything that can interleave with a pass, exactly such a creation puts the world of a live server at its mercy. |
| `WorldGC.DistinctNeverReuse` | internal/reaper/reaper.go:98-137 | Servers with distinct keys, as generated ids have, never do that. |
| `WorldGC.ReusedKeyIsReaped` | internal/reaper/reaper.go:98-137 | A server created after the lists under the key of a deleted server's world has its upload removed. |
| `WorldGC.OtherOrderReapsLive` | internal/reaper/reaper.go:111-117 | Listing the servers before the store would. |
| `Whitelist.WhitelistSyncCommands` | internal/minecraft/whitelist.go:33-74 | Sorted grants, sorted revocations, then the switch. |
| `Whitelist.BuildIndex` | internal/minecraft/whitelist.go:76-86 | The last spelling of each lower-case form; blanks skipped. |
| `Whitelist.TrimSpec` | internal/minecraft/whitelist.go:74-86 | Trimming cuts white space off both ends, all of it, and nothing else. |
| `Whitelist.CollectExtra` | internal/minecraft/whitelist.go:47-59 | In any iteration order: the names one side lacks, sorted, each once. |
| `Whitelist.OneSortedExtra` | internal/minecraft/whitelist.go:58-59 | There is only one such list, so map order cannot show. |
| `Whitelist.SyncConverges` | internal/minecraft/whitelist.go:33-74 | Running the commands on a case-insensitive whitelist leaves exactly the desired names, enforced if and only if there are any. |
| `Whitelist.SyncIsMinimal` | internal/minecraft/whitelist.go:33-42 | As many grants and revocations as names differ, and no list of commands that leads from the current to the desired names has fewer. |
| `Whitelist.ChangesNeeded` | internal/minecraft/whitelist.go:33-42 | Any commands change at least as many names as the whitelist before and after differ in. |
| `Whitelist.NothingToSync` | internal/minecraft/whitelist.go:33-42 | Only the switch is sent if and only if the lists agree. |
| `OvercommitRun.HostSoldTwice` | internal/reconciler/reconciler.go:499-504 | A concrete run with such a failed write in which a host with room for one server ends up with two. |
| `Servers.GameServerRepository.Create` | internal/repository/game_server.go:58-81 | Appends a pending row that wants to run and holds nothing. |
| `Servers.GameServerRepository.SetDesiredState` | internal/repository/game_server.go:203-209 | Changes what the user wants and nothing else. |
| `TableWriter.Tabler.WriteOneInode` | internal/squashfs/writer.go:788-822 | Records the reference before the record and appends the record. |
| `TableWriter.Tabler.ChildEntry` | internal/squashfs/writer.go:749-768 | One child's entry; refused exactly when the inode table has outgrown 32-bit offsets. |
| `TableWriter.WriteListing` | internal/squashfs/writer.go:770-776 | A listing with its start resolved while the stream is open. |
| `ListingWriter.WriteRun` | internal/squashfs/directory.go:87-104 | The entries of one group in order; stops at the first bad name. |
| `ImageWriter.Writer.EmitIds` | internal/squashfs/writer.go:518-533 | Data blocks, then the lookup list; the superblock will point at the latter. |
| `ImageWriter.Writer.EmitStream` | internal/squashfs/writer.go:504-516 | Appends exactly the finalized stream. |
| `Closing.PrepareEntries` | internal/squashfs/writer.go:443-451 | Tree, numbers, link counts and ids together are the context of the specification; fails exactly when it has none. |
| `Passes.Marks.Walk` | internal/squashfs/writer.go:633-646 | Numbers a forest consecutively in preorder and leaves everyone else alone. |
| `Passes.LinkMarks.WalkDirs` | internal/squashfs/writer.go:668-678 | Counts subdirectories and sets the counts of exactly the directories below. |
| `TarImage.CopyBody` | internal/image/rootfs.go:454-462 | Copying chunk by chunk appends exactly the data; it fails only for the compressor or a sink without room for it. |
| `TarImage.PutNew` | internal/image/rootfs.go:436-509 | A header for a new path: its missing parents, then the entry; it fails exactly as `NewVerdict` says, or for the compressor or a full sink. |
| `RootfsBuild.InitRead` | internal/image/rootfs.go:513-545 | Any image that shows the plan shows the init file exactly, and nothing else under the pipeline's directory. |
| `Reconciler.Reconciler.MarkError` | internal/reconciler/reconciler.go:168-174 | An error before a release marks the row and changes nothing else. |
| `WorldGC.WorldStore.Delete` | internal/storage/store.go:56-58 | Removes that key, missing or not, unless the backend fails. |

## Left out

- HTTP handlers, authentication, gRPC and protobuf plumbing, the Firecracker client, the frontend and configuration: wrappers without a hard property.
- eBPF maps, TAP devices, netlink, guest mounts, vsock and process supervision: kernel behaviour that is not in the repository.
- The compression algorithm (zlib, RFC 1950): a contract stands for it.
- Fragments, extended attributes and the export table: the writer does not produce them.
- The texts of errors, and the metaBlock field that records the uncompressed size: nothing reads them.
- ImageWriter.Writer.constructor: starts from a valid configuration and an empty sink of at least 96 bytes, because `ImageWriter.NewWriter` is what callers use and answers the other cases; a failing seek is not modelled.
- ImageWriter.Writer.FileWrite: a handle is identified by its path, which is unique because duplicates are refused; after an I/O error nothing is promised about the writer.
- ImageWriter.Writer.Close: is stated for fewer than 2^32 - 3 entries, because beyond that a 32-bit inode number or link count could wrap; the sink fails when full and otherwise writes everything.
- RootfsBuild.BuildSquashfs: stops with `TooLarge` beyond 2^32 - 4 entries, because beyond that inode numbers could wrap; reading the tar format itself is not modelled, a header comes with the bytes its reader yields.
- Passes.SortChildren: children are a value (first child, next sibling) rather than slices of pointers, so in-place sorting of a shared slice is not captured.
- Registry digests, image caching and the conversion of image configuration to a run spec: easy members.
- Backups, health telemetry and the whitelist push of the reconciler: they change neither placement, capacity nor billing.
- Reconciler.Reconciler.Reconcile: database writes other than the assignment succeed in the imperative form; the machine has the failing ones.
- Hub.RepliesCorrelate: a reply whose caller gives up at the same moment may be dropped, as the select allows; a dropped stream leaves its callers waiting for their contexts.
- Host readiness as a sign of a live connection: an old stream's teardown marks the host down even after a newer one registered, so it is not claimed.
- The capacity check of the Firecracker runtime: check and insert are separate critical sections, so it is not claimed under concurrency.
- Fleet.HostRepository.ListReady: the order of the snapshot, newest host first, is not modelled, because only the choice among equally free hosts depends on it.
- Ipam.NewIPAM: addresses are numbers; the errors for addresses that are not IPv4 are not modelled.
- Whitelist.WhitelistSyncCommands: commands are values rather than strings, lower-casing is any function, and trimming covers ASCII white space; parsing the server's reply is not modelled.
- Quotas, pricing, registry caching and log tailing: easy members or floating point.
