# FPGA IP access library: verified model

This project models the core of the FPGA IP access library in Dafny and proves
what the library promises about it: the scan of a Device Feature List, the table
it fills, the interrupt thread of the UIO platform, the address arithmetic of the
devmem and UIO platforms, and the wide MMIO accesses.
`dafny verify dfyconfig.toml` checks everything.

## What is modelled

**The walker** (`Words`, `DflCodec`, `DflTree`, `DflListing`, `DflParents`,
`DflPaths`, `DflSample`, `ParentStack`, `InterfaceTable`, `DflWalker`). A ROM is a fixed function from 64-bit
addresses to 64-bit words. Where the walk ends, the ROM *unfolds* to a finite tree of
headers, parameter blocks and branches. `DflListing.Flatten` lists that tree in
preorder, each entry read from the ROM. `DflWalker.Walker` is the source's program over
its own mutable state: the counter, the running index, the hand-grown parent stack and
the hand-grown table of entries that own parameter arrays that own data blocks. Both
passes run the same recursion and are proved against the same listing. The table keeps
account of every heap block: the live ones are those reachable, along one pointer each.
`DflPaths` says what the listing is without any tree: every path of links that can be
followed from the entry, in the order of paths, and which path each parent belongs to.
`DflSample` is one image and its table, written out in full.

**Printing and moving images** (`DflImage`, `DflRoundTrip`, `DflRelocation`,
`DflWitnesses`, `Platforms`, `DflReads`). A feature forest without any addresses is laid
out with the tests' encoders over a tree of addresses, scanned, and compared with a
listing computed from forest and addresses alone. The tree may place a level anywhere, in
front of or behind the branches that lead to it, and one level under several branches, as
`create_hier_dfl` does; `DflImage.Image` is one such layout, in one run of words.
Displacing an image displaces the walk and the table, which is why the address a
user is shown does not depend on where `mmap` put the device.

**The interrupt protocol** (`InterruptProtocol`, `NullCalls`, `InterfaceApi`). Two program counters
over the shared exit flag, read-write lock, semaphore, enable flag and routine. A step
is one access to shared state; every interleaving and every outcome of `open`, `write`,
`poll`, `sem_wait` and `pthread_rwlock_rdlock` in the thread is a run. `InterfaceApi`
has the same calls as sequential code on the table.

**Wide MMIO** (`Mmio`). Little-endian accesses to a flat byte memory in both builds,
with the log of accesses they make.

## What the proofs found

- The parent stack starts with `top` at 0, since its declared default of -1 is never
  assigned, and it grows only when `top` has reached the size. Slot 0 is never used and
  the eighth live marker is stored one past the allocation: a scan stays inside exactly
  when at most 7 lists are nested (`DflWalker.Walker.ScanMultiInterfaces`). Seven nested
  branches are an image that does not (`DflWitnesses.SevenNestedBranches`).
- `dfh_parent` is documented as the parent's index. A branch pushes the index assigned
  last, so the statement holds exactly when no header has two branch parameters
  (`DflParents.NumberingsAgree`). With two branches to one level, entry 2 gets parent 1
  instead of 0 (`DflWitnesses.ForkMisnumbered`).
- The decoder keeps 23 bits of the next-header offset where the tests' encoder writes 24
  (`DflCodec.DfhRoundTrip`), and the tests' macro for the register block address shifts
  it by one, which the decoder does not undo (`DflCodec.ShiftedCsrAddrRoundTrip`).
- A final block with no data reads as the terminator and is not stored, so a printable
  forest gives its final blocks data.
- The cleanup means to post only when the semaphore is empty, but asks for its value only
  if its unlock has failed. After a successful unlock it always posts, so a token that the
  thread has not taken yet makes two (`InterruptProtocol.CleanupPostsTwice`); the post
  keeps the semaphore binary exactly when it finds it empty
  (`InterruptProtocol.CleanupPostBinaryIff`). Shutdown is not harmed.
- A branch address is written without masking its low bits: an odd relative one is read as
  absolute (`DflCodec.BranchDataRoundTrip`).
- Resizing a parameter array to 0 frees the array and not the data of its elements
  (`InterfaceTable.InterfaceInfoVec.ParamBlockResize`); the walker never does so.
- The interrupt thread reads the routine once to test it and again to call it. It calls
  NULL exactly when a NULL registration falls between the two and the thread moves before
  another routine is registered (`NullCalls.NullCallIff`). To be safe in every
  interleaving an application must not replace a routine by NULL once it has enabled the
  interrupt, and that is enough (`NullCalls.CanCallNullIff`).
- A devmem window that reaches the end of the address space rejects every entry address
  (`Platforms.DevmemValidateArgs`); the last page is one (`Platforms.TopWindowRejected`).
- In the emulating build a 64-bit store at one of the last four offsets puts its upper
  half at the other end of the 4 GiB range (`Mmio.BuildsAgreeOnWord`).

## Assumptions

The ROM does not change between the passes; allocation succeeds and `malloc(0)` does
not return NULL; addresses are 64-bit and wrap; a run-time exception halts. In the
interrupt protocol: one application thread, one session in single-component mode,
sequentially consistent memory, routines that return and do not call the interrupt API,
and, apart from the outcomes listed above, system calls that succeed. The device behind
`Mmio` reads back what was written.

## Model

| member | source | states |
|---|---|---|
| `DflWalker.Walker.ScanMultiInterfaces` | fpga_ip_access_lib/common/src/intel_fpga_api_cmn_dfl.c:158-179 | From any valid state, the two-pass scan leaves exactly the preorder listing of the ROM's unfolding from the entry address, as many entries as the first pass counted, the parent stack empty and freed; it stays inside the stack's allocation exactly when at most 7 lists are nested |
| `DflWalker.Walker.DealWithInterface` | fpga_ip_access_lib/common/src/intel_fpga_api_cmn_dfl.c:200-262 | A level's walk appends the level's listing to the pass (its length to the counter, or its entries to the table), reads its parent from its own marker, and removes that marker and nothing below it; it runs out of the stack's allocation exactly when markers plus nesting exceed 7 |
| `DflWalker.Walker.ProcessParamList` | fpga_ip_access_lib/common/src/intel_fpga_api_cmn_dfl.c:487-542 | Following a header's parameter list appends the listings of its branches in order and leaves the stack as it was |
| `DflWalker.Walker.HandleWellKnownParamId` | fpga_ip_access_lib/common/src/intel_fpga_api_cmn_dfl.c:474-485 | Only a block with the branch id opens a level; any other leaves pass and stack alone |
| `DflWalker.Walker.HandleBranchParamId` | fpga_ip_access_lib/common/src/intel_fpga_api_cmn_dfl.c:434-472 | A branch visits the level at its absolute or relative target; entries found there carry the index assigned last as parent |
| `DflWalker.Walker.ScanTheNumInterfaces` | fpga_ip_access_lib/common/src/intel_fpga_api_cmn_dfl.c:181-188 | The first pass counts the headers of the unfolding and changes neither index nor table |
| `DflWalker.Walker.DflCollectInterfacesInfo` | fpga_ip_access_lib/common/src/intel_fpga_api_cmn_dfl.c:190-198 | The second pass fills a table of that size completely, each slot once, in the order of the first pass |
| `DflWalker.Walker.SetInterfaceProperties` | fpga_ip_access_lib/common/src/intel_fpga_api_cmn_dfl.c:665-679 | A zeroed entry becomes the entry of its header, with the top marker as parent; no other entry changes |
| `DflWalker.Walker.SetParameterProperties` | fpga_ip_access_lib/common/src/intel_fpga_api_cmn_dfl.c:598-663 | The entry's parameter array becomes the stored form of the header's list; the data-size halt is never reached |
| `DflWalker.Walker.ParamDataCopy` | fpga_ip_access_lib/common/src/intel_fpga_api_cmn_dfl.c:384-395 | A data block receives the ROM words that follow its header, all of them, and nothing else in the table changes |
| `DflWalker.Walker.Cleanup` | fpga_ip_access_lib/uio/src/intel_fpga_platform_api_uio.c:286-293 | Resizing the table to 0 returns every block: nothing stays allocated |
| `DflWalker.Walker.constructor` | fpga_ip_access_lib/common/src/intel_fpga_api_cmn_dfl.c:74-90 | A new walker has an empty table, an empty parent stack and no heap block |
| `DflWalker.Walker.VisitHeader` | fpga_ip_access_lib/common/src/intel_fpga_api_cmn_dfl.c:200-212 | One header adds one to the count, or fills the next entry, never both |
| `DflWalker.Walker.StoreParams` | fpga_ip_access_lib/common/src/intel_fpga_api_cmn_dfl.c:605-662 | The loop over the parameter list stores its blocks in order, with a zero element exactly for a terminator that follows a block |
| `DflWalker.Walker.StoreBlock` | fpga_ip_access_lib/common/src/intel_fpga_api_cmn_dfl.c:614-638 | One more block is stored behind the earlier ones, which stay as they were |
| `DflWalker.Walker.FillBlock` | fpga_ip_access_lib/common/src/intel_fpga_api_cmn_dfl.c:618-638 | The element gets version, id and all the data of the block, and the size check never halts |
| `DflTree.ParamsUnique` | fpga_ip_access_lib/common/src/intel_fpga_api_cmn_dfl.c:487-542 | A parameter list unfolds in at most one way |
| `DflTree.BranchIdOpensLevel` | fpga_ip_access_lib/common/src/intel_fpga_api_cmn_dfl.c:474-478 | A block opens a level if and only if the lowest 16 bits of its header are 0xC |
| `DflTree.UnfoldingUnique` | fpga_ip_access_lib/common/src/intel_fpga_api_cmn_dfl.c:200-262 | A ROM has at most one unfolding from an address, so the scan's result is a function of ROM and entry address |
| `DflTree.OffsetAdvances` | fpga_ip_access_lib/common/src/intel_fpga_api_cmn_dfl.c:598-663 | In a list the walk can finish, every block that is not the last has an offset of at least 8 |
| `DflTree.TerminatesIffRanked` | fpga_ip_access_lib/common/src/intel_fpga_api_cmn_dfl.c:243-261 | The walk from an address is finite if and only if the header, parameter and branch links reachable from it admit a ranking; addresses need not grow |
| `DflTree.CyclicRomDoesNotTerminate` | fpga_ip_access_lib/common/src/intel_fpga_api_cmn_dfl.c:243-252 | A header that is not the last and links to itself has no finite walk |
| `DflSample.ScanSample` | fpga_ip_access_lib/common/src/intel_fpga_api_cmn_dfl.c:158-262 | A scan of one image written word by word leaves a table written value by value: next header, data block, relative branch, terminator, absolute and negative register block addresses, final block |
| `DflSample.SampleListing` | fpga_ip_access_lib/common/src/intel_fpga_api_cmn_dfl.c:397-542 | The listing of that image, entry by entry |
| `DflSample.SampleUnfolds` | fpga_ip_access_lib/common/src/intel_fpga_api_cmn_dfl.c:264-362 | The fields of its words, and the addresses they lead to |
| `DflPaths.ScanEnumeratesPaths` | fpga_ip_access_lib/common/src/intel_fpga_api_cmn_dfl.c:158-262 | A scan lists the header at the end of every path of next-header and branch links from the entry, parameters included, once each and in the order of the paths: a level reached in several ways is listed once for each, and the count is the number of paths |
| `DflPaths.VisitsSorted` | fpga_ip_access_lib/common/src/intel_fpga_api_cmn_dfl.c:200-262 | Visits are in strictly rising order of paths: a header before what follows it, branches in block order, then the next header |
| `DflPaths.BeforeIrreflexive` | fpga_ip_access_lib/common/src/intel_fpga_api_cmn_dfl.c:200-262 | That order is strict, so no path is visited twice |
| `DflPaths.VisitsLead` | fpga_ip_access_lib/common/src/intel_fpga_api_cmn_dfl.c:243-253 | Each visit's path can be followed in the ROM and ends at the header visited |
| `DflPaths.PathVisited` | fpga_ip_access_lib/common/src/intel_fpga_api_cmn_dfl.c:434-542 | Each path that can be followed in the ROM is visited |
| `DflPaths.ListingFollowsVisits` | fpga_ip_access_lib/common/src/intel_fpga_api_cmn_dfl.c:665-679 | Entry k of the listing, with its parameters and all but its parent, is read from the header that path k ends at and from the list of that header |
| `DflPaths.ScanParents` | fpga_ip_access_lib/common/src/intel_fpga_api_cmn_dfl.c:434-438 | In a whole scan every entry carries the index of the first member of its own list less one: -1 in the root list, the index visited last in a branched one |
| `DflPaths.ListingParents` | fpga_ip_access_lib/common/src/intel_fpga_api_cmn_dfl.c:200-262 | The same for a level listed from any index under any parent |
| `DflListing.Flatten` | fpga_ip_access_lib/common/src/intel_fpga_api_cmn_dfl.c:158-262 | The listing has exactly as many entries as the tree has headers |
| `DflListing.Stored` | fpga_ip_access_lib/common/src/intel_fpga_api_cmn_dfl.c:598-663 | No parameter is stored exactly when the list starts with the terminator |
| `DflListing.StoredTiles` | fpga_ip_access_lib/common/src/intel_fpga_api_cmn_dfl.c:598-663 | Stored blocks tile the parameter area: block j starts where the sizes of the earlier ones end, holds the ROM's words there (all zero for a terminator), and is last exactly when its header says so |
| `DflListing.BlockSpan` | fpga_ip_access_lib/common/src/intel_fpga_api_cmn_dfl.c:598-663 | The next-block offset of a block that is not last is the size of its header and stored data |
| `DflListing.StoredBranchesAreTaken` | fpga_ip_access_lib/common/src/intel_fpga_api_cmn_dfl.c:434-542 | The stored parameters with id 0xC are, in order, exactly the branches taken, and each one with data names its target in data[0] |
| `DflParents.SubtreesContiguous` | fpga_ip_access_lib/common/src/intel_fpga_api_cmn_dfl.c:200-262 | In a preorder parent array, everything at or below an entry fills one contiguous index range |
| `DflParents.ScanPreorder` | fpga_ip_access_lib/common/src/intel_fpga_api_cmn_dfl.c:200-262 | Every scan's parent links form a preorder forest: parents precede children, and each parent is on the chain of the entry before |
| `DflParents.MembersShareParent` | fpga_ip_access_lib/common/src/intel_fpga_api_cmn_dfl.c:434-472 | In a level's listing exactly the level's own members carry its parent; every other entry points inside the level |
| `DflParents.LevelPreorder` | fpga_ip_access_lib/common/src/intel_fpga_api_cmn_dfl.c:200-262 | Appending a level's listing to a preorder forest gives a preorder forest whose last entry lies below the level's parent |
| `DflParents.NumberingsAgree` | fpga_ip_access_lib/uio/inc/intel_fpga_platform_uio.h:84 | dfh_parent names the header that owns the branch, as documented, if and only if no header in the tree has two branch parameters |
| `DflCodec.DfhRoundTrip` | fpga_ip_access_lib/common/test/utst/intel_fpga_api_hier_dfl_test.cpp:43 | Decoding an encoded start word gives back end-of-list always, and the next offset exactly when it is below 2^23: the encoder writes 24 bits and the decoder keeps 23 |
| `DflCodec.CsrGroupSizeRoundTrip` | fpga_ip_access_lib/common/test/utst/intel_fpga_api_hier_dfl_test.cpp:45 | Has-params survives encoding; group and instance do exactly when they fit 15 and 16 bits |
| `DflCodec.ParamHeaderRoundTrip` | fpga_ip_access_lib/common/test/utst/intel_fpga_api_hier_dfl_test.cpp:46 | The end flag survives; version and id do exactly when they fit 16 bits, the offset exactly when it is a multiple of 8 below 2^32 |
| `DflCodec.CsrAddrRoundTrip` | fpga_ip_access_lib/common/src/intel_fpga_api_cmn_dfl.c:397-422 | With the flag in bit 0 and nothing shifted, an absolute or relative register block address survives exactly when it is even |
| `DflCodec.ShiftedCsrAddrRoundTrip` | fpga_ip_access_lib/common/test/utst/intel_fpga_api_hier_dfl_test.cpp:44 | The tests' macro, which shifts the address by one, is undone by the decoder only for 0, absolute or relative |
| `DflCodec.BranchDataRoundTrip` | fpga_ip_access_lib/common/test/utst/intel_fpga_api_hier_dfl_test.cpp:47 | An absolute target survives if and only if it is a multiple of 8; a relative one does too, and otherwise only if it is odd, hence taken for absolute, and the header's address cancels its low bits |
| `DflCodec.ParamDataSizeBounds` | fpga_ip_access_lib/common/src/intel_fpga_api_cmn_dfl.c:368-382 | Data sizes are always multiples of 8, and below 2^32 exactly when the block is last or its offset reaches 8 |
| `DflRoundTrip.ParsePrint` | fpga_ip_access_lib/common/test/utst/intel_fpga_api_hier_dfl_test.cpp:151-531 | A forest laid out in a ROM at any addresses (levels one after another, shared by several branches, ahead or behind) unfolds to its tree, and the scanned listing is the forest's own (order, GUIDs, ids, bases, parameters, parents) if and only if no header has two branches |
| `DflRoundTrip.LaidUnfolds` | fpga_ip_access_lib/common/test/utst/intel_fpga_api_hier_dfl_test.cpp:312-531 | The words of a laid-out forest unfold to exactly the addresses it was laid out at |
| `DflRoundTrip.LaidListing` | fpga_ip_access_lib/common/test/utst/intel_fpga_api_hier_dfl_test.cpp:151-531 | With owners as parents, the listing read from a laid-out forest is the one computed from forest and addresses without any ROM |
| `DflRoundTrip.CompactLaid` | fpga_ip_access_lib/common/test/utst/intel_fpga_api_hier_dfl_test.cpp:526-528 | A forest printed as one run of words, sub-levels behind the parameters that lead to them, is laid out |
| `DflRoundTrip.MatchedSize` | fpga_ip_access_lib/common/test/utst/intel_fpga_api_hier_dfl_test.cpp:151-531 | The tree of a laid-out forest has one header for each feature |
| `DflRoundTrip.LaidParameters` | fpga_ip_access_lib/common/test/utst/intel_fpga_api_hier_dfl_test.cpp:312-531 | The parameters stored from a laid-out list are the forest's own blocks, branch targets included |
| `DflRoundTrip.FeatureRead` | fpga_ip_access_lib/common/test/utst/intel_fpga_api_hier_dfl_test.cpp:151-224 | The entry read from a laid-out header is the one computed from the feature |
| `DflRoundTrip.ScanPrinted` | fpga_ip_access_lib/common/src/intel_fpga_api_cmn_dfl.c:158-262 | Given a laid-out forest, the walker counts its features and leaves its listing, under the same two exact conditions |
| `DflImage.RomOfHolds` | fpga_ip_access_lib/common/test/utst/intel_fpga_api_hier_dfl_test.cpp:525-528 | Every image of at most 2^61 words has a ROM that holds it at any base |
| `DflWitnesses.ScanChain` | fpga_ip_access_lib/common/src/intel_fpga_api_cmn_dfl.c:147-156 | On a printed chain of n nested branches the scan ends well if n is at most 6, and stores outside the parent stack's allocation if it is 7 or more |
| `DflWitnesses.SevenNestedBranches` | fpga_ip_access_lib/common/src/intel_fpga_api_cmn_dfl.c:149-155 | The image of seven nested branches, at which the stack stays in its allocation no longer |
| `DflWitnesses.ChainUnfolds` | fpga_ip_access_lib/common/src/intel_fpga_api_cmn_dfl.c:434-472 | Each such image unfolds, with one list more nested than it has branches |
| `DflWitnesses.ForkMisnumbered` | fpga_ip_access_lib/common/src/intel_fpga_api_cmn_dfl.c:434-438 | An image of a header with two branches to one level: entry 2 of the scan carries parent 1 where the owner of its branch is entry 0 |
| `ParentStack.DfhParentStack.Push` | fpga_ip_access_lib/common/src/intel_fpga_api_cmn_dfl.c:147-156 | A push onto fewer than 7 live markers appends; with 7 the store is outside the allocation, because growth is tested before the increment |
| `ParentStack.DfhParentStack.Pop` | fpga_ip_access_lib/common/src/intel_fpga_api_cmn_dfl.c:135-145 | A pop removes the newest marker; the empty-stack exception needs top == -1 |
| `ParentStack.DfhParentStack.Resize` | fpga_ip_access_lib/common/src/intel_fpga_api_cmn_dfl.c:92-120 | Growing clears the added slots, 0 frees, any other shrinking halts |
| `ParentStack.DfhParentStack.constructor` | fpga_ip_access_lib/common/src/intel_fpga_api_cmn_dfl.c:85-90 | The stack starts zeroed with top 0, not -1: slot 0 is never used |
| `InterfaceTable.InterfaceInfoVec.Resize` | fpga_ip_access_lib/common/src/intel_fpga_api_cmn_inf.c:105-109 | The table is a pure sequence: the common prefix stays, new entries are zero; size 0 leaves no live block |
| `InterfaceTable.InterfaceInfoVec.Reserve` | fpga_ip_access_lib/common/src/intel_fpga_api_cmn_inf.c:111-154 | Live blocks remain exactly those reachable, each along one pointer; slots past the size are all zero |
| `InterfaceTable.InterfaceInfoVec.Truncate` | fpga_ip_access_lib/common/src/intel_fpga_api_cmn_inf.c:127-141 | Dropped entries' arrays and data are freed once each and the slots zeroed |
| `InterfaceTable.InterfaceInfoVec.Grow` | fpga_ip_access_lib/common/src/intel_fpga_api_cmn_inf.c:113-124 | A reallocation keeps the entries, clears the added ones and gives up the old block |
| `InterfaceTable.InterfaceInfoVec.FreeEntry` | fpga_ip_access_lib/common/src/intel_fpga_api_cmn_inf.c:130-137 | Freeing an entry returns its data blocks and its array, once each, and no other block |
| `InterfaceTable.InterfaceInfoVec.FreeEntries` | fpga_ip_access_lib/common/src/intel_fpga_api_cmn_inf.c:129-138 | The loop over the dropped entries returns everything they own and nothing else |
| `InterfaceTable.InterfaceInfoVec.Release` | fpga_ip_access_lib/common/src/intel_fpga_api_cmn_inf.c:143-152 | An empty table returns its slots: no block of the library stays live |
| `InterfaceTable.InterfaceInfoVec.Free` | fpga_ip_access_lib/common/src/intel_fpga_api_cmn_inf.c:134-136 | Only NULL or a live block is ever freed |
| `InterfaceTable.InterfaceInfoVec.GrowParams` | fpga_ip_access_lib/common/src/intel_fpga_api_cmn_dfl.c:564-577 | A larger array keeps its elements, clears the added ones and gives up the old block |
| `InterfaceTable.InterfaceInfoVec.FreeParams` | fpga_ip_access_lib/common/src/intel_fpga_api_cmn_dfl.c:578-586 | The array is freed once and the entry has no parameters; exactly the data blocks of its elements are then live without being reachable |
| `InterfaceTable.InterfaceInfoVec.ParamBlockInit` | fpga_ip_access_lib/common/src/intel_fpga_api_cmn_dfl.c:547-556 | The entry gets an array of one uninitialised element; what it owned before leaks, so the heap stays accounted for if and only if it had no array |
| `InterfaceTable.InterfaceInfoVec.ParamBlockResize` | fpga_ip_access_lib/common/src/intel_fpga_api_cmn_dfl.c:562-591 | The array grows by zero elements and keeps the earlier ones; shrinking to a size other than 0 halts; size 0 keeps the heap accounted for exactly when no element owns data |
| `InterfaceTable.InterfaceInfoVec.ParamDataAllocate` | fpga_ip_access_lib/common/src/intel_fpga_api_cmn_dfl.c:368-382 | A data block of the asked size, or a halt exactly when the size is not a multiple of 8; a block the element owned before leaks, and only that breaks heap accounting |
| `InterfaceTable.InterfaceInfoVec.Put` | fpga_ip_access_lib/common/src/intel_fpga_api_cmn_dfl.c:665-679 | Assigning an entry's plain fields leaves every block owned as before |
| `InterfaceTable.InterfaceInfoVec.PutParam` | fpga_ip_access_lib/common/src/intel_fpga_api_cmn_dfl.c:618-638 | Assigning into a parameter or its data leaves every block owned as before |
| `InterfaceApi.Open` | fpga_ip_access_lib/common/src/intel_fpga_api_cmn_inf.c:61-73 | An index is handed out only while not open: a second open before a close gets the invalid handle |
| `InterfaceApi.Close` | fpga_ip_access_lib/common/src/intel_fpga_api_cmn_inf.c:75-81 | Closing clears the claim and ignores an index out of range |
| `InterfaceApi.InterruptOpen` | fpga_ip_access_lib/common/src/intel_fpga_api_cmn_inf.c:83-95 | The same claim, kept apart for interrupts |
| `InterfaceApi.InterruptClose` | fpga_ip_access_lib/common/src/intel_fpga_api_cmn_inf.c:97-103 | Closing clears the interrupt claim and ignores an index out of range |
| `InterfaceApi.RegisterIsr` | fpga_ip_access_lib/uio/src/intel_fpga_api_uio.c:52-66 | -1 and no change exactly for a handle outside [0, size); otherwise 1 when a routine was replaced, 0 when none was there |
| `InterfaceApi.EnableInterrupt` | fpga_ip_access_lib/uio/src/intel_fpga_api_uio.c:68-87 | -1 and no change exactly for a handle outside [0, size); otherwise the entry is enabled and an empty semaphore gets a token |
| `InterfaceApi.DisableInterrupt` | fpga_ip_access_lib/uio/src/intel_fpga_api_uio.c:89-98 | -1 and no change exactly for a handle outside [0, size); otherwise the entry is disabled |
| `InterfaceApi.Perform` | fpga_ip_access_lib/uio/src/intel_fpga_api_uio.c:52-98 | Every call makes of the table what its kind says and keeps table, heap and stack valid |
| `InterfaceApi.Session` | fpga_ip_access_lib/common/src/intel_fpga_api_cmn_dfl.c:158-179 | After any sequence of calls the table is what the calls make of it one after another |
| `InterfaceApi.ScanAfterHistory` | fpga_ip_access_lib/common/src/intel_fpga_api_cmn_dfl.c:158-179 | After any sequence of scans of any images, claims, registrations and cleanups, a scan leaves a table that depends on its own ROM and entry address alone, with all private fields clear |
| `InterfaceApi.Rescan` | fpga_ip_access_lib/common/src/intel_fpga_api_cmn_dfl.c:158-179 | A scan of another image over the same counter, index, stack and table leaves that image's listing |
| `InterfaceApi.ListingUnclaimed` | fpga_ip_access_lib/common/src/intel_fpga_api_cmn_dfl.c:665-679 | No entry of a scanned table is open, enabled or has a routine |
| `DflRelocation.MovedUnfolds` | fpga_ip_access_lib/common/src/intel_fpga_api_cmn_dfl.c:449-471 | A displaced image unfolds to the displaced tree if and only if every branch taken is relative (or nothing moves) |
| `DflRelocation.MovedListing` | fpga_ip_access_lib/common/src/intel_fpga_api_cmn_dfl.c:397-422 | The displaced listing is the old one with every base address displaced modulo 2^64, and nothing else changed, if and only if every register block address is relative (or nothing moves) |
| `DflRelocation.MovedParams` | fpga_ip_access_lib/common/src/intel_fpga_api_cmn_dfl.c:487-542 | A displaced parameter list unfolds to the displaced list if and only if the branches in it are relative (or nothing moves) |
| `DflRelocation.MovedInfo` | fpga_ip_access_lib/common/src/intel_fpga_api_cmn_dfl.c:397-422 | An entry of a displaced header differs by its base address alone, moved if and only if it is relative (or nothing moves) |
| `DflRelocation.MovedStored` | fpga_ip_access_lib/common/src/intel_fpga_api_cmn_dfl.c:598-663 | Stored parameters do not depend on where the image lies |
| `Platforms.DevmemScanPlacementFree` | fpga_ip_access_lib/devmem/src/intel_fpga_platform_api_devmem.c:354-383 | Wherever mmap places the window, the walk follows the device's own tree if and only if its branches are relative, and the decoded table is the device's own listing if and only if its register block addresses are relative |
| `Platforms.DevmemDecodesBack` | fpga_ip_access_lib/devmem/src/intel_fpga_platform_api_devmem.c:354-376 | The first header decodes to the entry address, a single component's base to the start address |
| `Platforms.DevmemScanInterfaces` | fpga_ip_access_lib/devmem/src/intel_fpga_platform_api_devmem.c:361-383 | The scan method on both modes: decoded addresses are the device's, whatever the mapping |
| `Platforms.SingleScan` | fpga_ip_access_lib/devmem/src/intel_fpga_platform_api_devmem.c:365-372 | Single-component mode: one entry, at the given base and unclaimed, everything else kept |
| `Platforms.UioScanInterfaces` | fpga_ip_access_lib/uio/src/intel_fpga_platform_api_uio.c:573-595 | The same for the UIO platform |
| `Platforms.DevmemValidateArgs` | fpga_ip_access_lib/devmem/src/intel_fpga_platform_api_devmem.c:270-294 | Accepts if and only if span and start are not 0 and, in DFL mode, the entry lies in [start, start + span) and that sum does not reach 2^64 |
| `Platforms.TopWindowRejected` | fpga_ip_access_lib/devmem/src/intel_fpga_platform_api_devmem.c:287-288 | An instance of a window that the wrapped sum rejects: the last page, scanned from its start |
| `Platforms.DevmemEntryInWindow` | fpga_ip_access_lib/devmem/src/intel_fpga_platform_api_devmem.c:287-288 | An accepted entry is scanned from an address inside the window |
| `Platforms.DevmemWindow` | fpga_ip_access_lib/devmem/src/intel_fpga_platform_api_devmem.c:337-375 | The window shows the device from the 4 KiB page of start on, and a single component lies as far into it as start into its page |
| `Platforms.UioWindow` | fpga_ip_access_lib/uio/src/intel_fpga_platform_api_uio.c:549-583 | The window shows the device from its first byte on |
| `Platforms.UioScanPlacementFree` | fpga_ip_access_lib/uio/src/intel_fpga_platform_api_uio.c:566-595 | The same two equivalences for the UIO mapping and decoder, and the entry decodes back |
| `Mmio.Interface.Read32` | fpga_ip_access_lib/uio/inc/intel_fpga_api_uio.h:65-68 | The little-endian value of four bytes, in one access |
| `Mmio.Interface.Write32` | fpga_ip_access_lib/uio/inc/intel_fpga_api_uio.h:70-73 | Four bytes, lowest first, in one access |
| `Mmio.Interface.Write64` | fpga_ip_access_lib/uio/inc/intel_fpga_api_uio.h:89-99 | One 8-byte store, or in the emulating build two 4-byte ones at offset and offset + 4, lower half first |
| `Mmio.Interface.Read64` | fpga_ip_access_lib/uio/inc/intel_fpga_api_uio.h:75-87 | One 8-byte load, or in the emulating build two 4-byte ones at offset and offset + 4; the little-endian value of the bytes read |
| `Mmio.Interface.Write512` | fpga_ip_access_lib/uio/inc/intel_fpga_api_uio.h:112-121 | Stores the 64 bytes in order by 8 accesses, or 16 in the emulating build, offsets wrapping at 2^32 |
| `Mmio.Interface.Read512` | fpga_ip_access_lib/uio/inc/intel_fpga_api_uio.h:101-110 | Fills the first 64 bytes of the buffer by 8 accesses to the same places, or 16, and leaves the rest of it |
| `Mmio.WriteThenRead` | fpga_ip_access_lib/uio/inc/intel_fpga_api_uio.h:101-121 | fpga_read_512 returns what fpga_write_512 wrote at any offset, and when the window does not wrap no other byte of memory changes |
| `Mmio.ReadBack` | fpga_ip_access_lib/uio/inc/intel_fpga_api_uio.h:75-121 | Narrow stores never come back to an earlier one, so what is written is read back even when offsets wrap |
| `Mmio.StoredByte` | fpga_ip_access_lib/uio/inc/intel_fpga_api_uio.h:89-92 | Byte i of a stored word is the one of weight 256^i and lies at the i-th address; no byte further away changes |
| `Mmio.StoreContiguous` | fpga_ip_access_lib/uio/inc/intel_fpga_api_uio.h:112-121 | Without wrapping, narrow stores equal one flat store of all the bytes |
| `Mmio.LoadContiguous` | fpga_ip_access_lib/uio/inc/intel_fpga_api_uio.h:101-110 | Without wrapping, narrow loads equal one flat load |
| `Mmio.AccessesContiguous` | fpga_ip_access_lib/uio/inc/intel_fpga_api_uio.h:101-121 | Without wrapping, the accesses are 8 (or 16), consecutive, ascending and disjoint |
| `Mmio.OneBlockIffContiguous` | fpga_ip_access_lib/uio/inc/intel_fpga_api_uio.h:89-121 | Narrow stores fill one block for all contents if and only if the last access keeps its 32-bit offset |
| `Mmio.BuildsAgreeOnWord` | fpga_ip_access_lib/uio/inc/intel_fpga_api_uio.h:89-99 | Both builds of a 64-bit store leave the same memory for all contents if and only if offset + 4 does not wrap |
| `Mmio.BuildsAgreeIff` | fpga_ip_access_lib/uio/inc/intel_fpga_api_uio.h:112-121 | Both builds of a store of 64-bit words, 512 bits among them, leave the same memory for all contents if and only if no word has its halves on both sides of the 32-bit wrap |
| `Mmio.BuildsAgree` | fpga_ip_access_lib/uio/inc/intel_fpga_api_uio.h:112-121 | The memories are then equal at every address |
| `Mmio.BuildsLoadAlikeIff` | fpga_ip_access_lib/uio/inc/intel_fpga_api_uio.h:101-110 | Both builds of a load of 64-bit words, 512 bits among them, read the same from all memories under exactly the same condition |
| `DflReads.EmulatedReadHaltsIff` | fpga_ip_access_lib/common/inc/intel_fpga_api_cmn_dfl.h:59-89 | The emulating build halts exactly at a misaligned address, whatever the offset |
| `DflReads.EmulatedRead` | fpga_ip_access_lib/common/inc/intel_fpga_api_cmn_dfl.h:73-89 | Otherwise it reads the word of the image, unless the upper half's offset wraps |
| `DflReads.BuildsReadAlikeIff` | fpga_ip_access_lib/common/inc/intel_fpga_api_cmn_dfl.h:73-89 | Both builds read the same from every memory if and only if the address is aligned and the upper half's offset does not wrap |
| `DflReads.WalkHaltsIff` | fpga_ip_access_lib/common/inc/intel_fpga_api_cmn_dfl.h:59-89 | Following what it reads, an emulating build walks the very tree of the image in both passes if every header and block of it is aligned, and halts otherwise |
| `DflReads.WalkAlignedIff` | fpga_ip_access_lib/common/src/intel_fpga_api_cmn_dfl.c:272-289 | Every header and block of a tree is 4-aligned if and only if the first header is and every next-header offset followed is a multiple of 4 |
| `InterruptProtocol.InvKept` | fpga_ip_access_lib/uio/src/intel_fpga_platform_api_uio.c:82-177 | Each step of either thread keeps the invariant on lock, exit flag, table, semaphore and program counters, through the cleanup's unconditional post |
| `InterruptProtocol.InvRun` | fpga_ip_access_lib/uio/src/intel_fpga_platform_api_uio.c:82-177 | So does every run of any length in any interleaving |
| `InterruptProtocol.ThreadStepShape` | fpga_ip_access_lib/uio/src/intel_fpga_platform_api_uio.c:82-177 | A step of the thread never adds a token, sleeps only on a disabled interface, and cannot start looking away from an exit flag that is set |
| `InterruptProtocol.LockExclusive` | fpga_ip_access_lib/uio/src/intel_fpga_platform_api_uio.c:88-100 | In every reachable state the thread and the cleanup never hold the lock together |
| `InterruptProtocol.SemaphoreBounded` | fpga_ip_access_lib/uio/src/intel_fpga_platform_api_uio.c:237-263 | In every reachable state of a session the semaphore is at most 1 before the cleanup's post and at most 2 after it |
| `InterruptProtocol.CleanupPostBinaryIff` | fpga_ip_access_lib/uio/src/intel_fpga_platform_api_uio.c:251-255 | The cleanup's post keeps the semaphore binary if and only if every earlier token has been taken |
| `InterruptProtocol.CleanupPostsTwice` | fpga_ip_access_lib/uio/src/intel_fpga_platform_api_uio.c:249-255 | A run that reaches 2: enable, then clean up before the thread takes its token |
| `InterruptProtocol.TokensConserved` | fpga_ip_access_lib/uio/src/intel_fpga_api_uio.c:76-82 | Each wake-up takes the token of one post, and what is left is the semaphore's value |
| `InterruptProtocol.EnableNeverLost` | fpga_ip_access_lib/uio/src/intel_fpga_api_uio.c:68-87 | In every reachable state outside an enable call, a thread asleep while its interface is enabled has a token to wake up on |
| `InterruptProtocol.EnableAnswered` | fpga_ip_access_lib/uio/src/intel_fpga_platform_api_uio.c:102-165 | After an enable returns, ten steps of the thread contain one that observes it, if nobody disables or cleans up and no call fails; with a routine registered throughout the thread cannot have stopped |
| `InterruptProtocol.EnableCallAnswered` | fpga_ip_access_lib/uio/src/intel_fpga_api_uio.c:68-87 | The same from the enable call itself, whatever the thread does while it is made |
| `InterruptProtocol.EnableObserved` | fpga_ip_access_lib/uio/src/intel_fpga_platform_api_uio.c:102-165 | Meanwhile the thread is never blocked and each of its steps brings it closer |
| `InterruptProtocol.NoLostShutdown` | fpga_ip_access_lib/uio/src/intel_fpga_platform_api_uio.c:237-263 | After cleanup has set the exit flag and posted, the thread is never blocked, whatever its calls return |
| `InterruptProtocol.ShutdownCompletes` | fpga_ip_access_lib/uio/src/intel_fpga_platform_api_uio.c:237-293 | Once the exit flag is set every interleaving has at most 16 steps left, and one that has none left has joined the thread and freed the table, or has crashed on a NULL routine |
| `InterruptProtocol.ShutdownBounded` | fpga_ip_access_lib/uio/src/intel_fpga_platform_api_uio.c:237-293 | Each step after the exit flag is set uses up one of the steps left, whoever makes it |
| `InterruptProtocol.NoDeadlock` | fpga_ip_access_lib/uio/src/intel_fpga_platform_api_uio.c:82-293 | In every reachable state some step is possible until the session is over |
| `InterruptProtocol.IsrCallsObserved` | fpga_ip_access_lib/uio/src/intel_fpga_platform_api_uio.c:102-153 | Each call of the routine uses up an iteration of its own that observed interrupt_enable true |
| `InterruptProtocol.EventsArmed` | fpga_ip_access_lib/uio/src/intel_fpga_platform_api_uio.c:117-133 | Each reported interrupt uses up a re-arming of its own |
| `InterruptProtocol.EventsDelivered` | fpga_ip_access_lib/uio/src/intel_fpga_platform_api_uio.c:131-141 | While a routine stays registered each reported interrupt is followed by exactly one call |
| `InterruptProtocol.AtMostOneIsrAfterDisable` | fpga_ip_access_lib/uio/src/intel_fpga_api_uio.c:89-98 | From a disable to the next enable at most one call happens, and only if an iteration was under way |
| `InterruptProtocol.AtMostOneIsrFromDisable` | fpga_ip_access_lib/uio/src/intel_fpga_api_uio.c:89-98 | From any disable call on, until the next enable, at most one call happens |
| `InterruptProtocol.ThreadStopsIff` | fpga_ip_access_lib/uio/src/intel_fpga_platform_api_uio.c:109-171 | A step of the thread is its last exactly when a lock, open, re-arming or wait fails, an interrupt is reported without a routine, or the exit flag was read |
| `InterruptProtocol.StoppedIff` | fpga_ip_access_lib/uio/src/intel_fpga_platform_api_uio.c:82-177 | In every run the thread has stopped exactly when one such step was taken |
| `InterruptProtocol.QuietPollStartsOver` | fpga_ip_access_lib/uio/src/intel_fpga_platform_api_uio.c:131-151 | A poll that fails or times out leads back to the top of the loop and changes nothing |
| `InterruptProtocol.DeviceClosed` | fpga_ip_access_lib/uio/src/intel_fpga_platform_api_uio.c:109-151 | Whatever the thread opens it closes once before it opens it again, and a stopped thread holds nothing |
| `InterruptProtocol.NoIsrAfterJoin` | fpga_ip_access_lib/uio/src/intel_fpga_platform_api_uio.c:263-293 | No call happens after the join |
| `InterruptProtocol.TableReadsInBounds` | fpga_ip_access_lib/uio/src/intel_fpga_platform_api_uio.c:102-153 | Whenever the thread reads entry 0 the table has one |
| `InterruptProtocol.RoutineKeepsRunning` | fpga_ip_access_lib/uio/src/intel_fpga_platform_api_uio.c:131-147 | With a routine registered and no failing call the thread does not stop while nobody cleans up |
| `NullCalls.NullCallIff` | fpga_ip_access_lib/uio/src/intel_fpga_platform_api_uio.c:135-141 | A run ends in a call of NULL if and only if a NULL registration fell between the thread's test and its call and the thread moved before another routine was registered |
| `NullCalls.DoomedIff` | fpga_ip_access_lib/uio/src/intel_fpga_platform_api_uio.c:135-141 | The same from any state that keeps the invariant, the routine possibly gone already |
| `NullCalls.CanCallNullIff` | fpga_ip_access_lib/uio/src/intel_fpga_api_uio.c:52-98 | Some interleaving of a sequence of application calls with the thread calls NULL if and only if one of the calls, made after an enable, replaces a routine by NULL |
| `NullCalls.NullCallHappens` | fpga_ip_access_lib/uio/src/intel_fpga_platform_api_uio.c:135-141 | An instance: register a routine, enable, register NULL |

## Left out

- DflWalker.Walker.ScanMultiInterfaces: requires the walk to be finite; on any other ROM the source recurses or loops without end, and which ROMs those are is settled by `DflTree.TerminatesIffRanked`. The 32-bit wrap of the counter and the index, which needs 2^31 headers, and the depth of the C call stack are not modelled. After a store outside the stack's allocation nothing is claimed.
- DflWalker.Walker.ParamDataCopy: the `int` loop counter is unbounded here; by `DflCodec.ParamDataSizeBounds` and `DflTree.OffsetAdvances` a block has fewer than 2^29 words, so it cannot overflow.
- InterfaceTable.InterfaceInfoVec.Reserve: shrinking requires that no pointer below the table is uninitialised; the source would free such a pointer, and every operation of the walker re-establishes this before it returns.
- InterfaceTable.InterfaceInfoVec.Malloc: identities are never handed out twice, where a C allocator may reuse an address.
- InterfaceApi.EnableInterrupt: the sequential effect; what the thread may do in between is in `InterruptProtocol`.
- InterruptProtocol.ShutdownCompletes: starts when the exit flag is set. Before that, cleanup waits for the write lock, and how the system's lock chooses between a waiting writer and a reader that keeps coming back is not modelled. The exception cleanup raises when a call of its own fails, and a failing unlock, whose status the code replaces by that of `sem_getvalue`, are not modelled.
- InterruptProtocol.EnableAnswered: speaks of the thread's own steps; that the scheduler runs the thread is not modelled.
- The interrupt protocol is a state machine on values, since its subject is interleaving; the session's initialisation is modelled step by step, with argument parsing, driver opening and mapping left out.
- A second session after cleanup: the thread identifier is never cleared by the source, so only one is modelled.
- The pairing of routine and context: they are written separately, and no consistent pair is claimed.
- Platforms.DevmemScanInterfaces: the whole device is visible at one displacement; where the mapped window ends is not modelled.
- DflReads.WalkHaltsIff: the reads of each header and block and the links followed between them; that the table is then filled from the same words is the walker's proof over the image.
- Masks and shifts are written as remainders and quotients by powers of two, which is what they are on unsigned words.
- Option and integer parsing, sysfs lookup, message printing, the ROM dump, debug-mode code and exception handlers: reporting, or library behaviour not part of the repository.
- The 8- and 16-bit MMIO accesses, the devmem and Zephyr copies of the MMIO header, DMA stubs, Zephyr device tables and the custom read hook: duplicates or easy members.
