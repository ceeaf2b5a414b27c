# Verified model of the hypervisor's memory, IOMMU, PCI and scheduling logic

This project models the parts of the hypervisor whose correctness is hardest to see from the code, and
proves what they promise. Code that changes state step by step is written as classes over arrays with
loops; protocols are state machines whose steps are the stores, locks and hardware actions of the code.

- **Paging engine** (`PageEntry`, `Paging`, `PagingSteps`, `PagingRanges`, `PageTable`, `PageSizes`,
  `PageRights`, `PageTree`, `PageLookup`, `ExecutablePages`, `Mmu`). The tables of one address space are
  four arrays, as in `page.c`: slot *p* of a level is the table that serves the *p*-th block of addresses
  of the level above. An entry is its two fields, the physical address and the set of its property bits;
  `PageEntry` proves on 64-bit words that the masks of `pgtable.h` keep the two apart. `Paging.Walk` is
  the processor's translation, following physical addresses from the PML4 table, and it is the reference
  every edit is proved against: `mmu_add` and `mmu_modify_or_del` change the translation of exactly the
  pages that hold bytes of the range, in exactly the way asked for, whatever mix of 1-GByte, 2-MByte and
  4-KByte pages they meet, split or create. The sizes and all property bits of pages, which that
  translation does not show, are tracked by address beside it: which pages a request splits, when it
  leaves a large page executable, and when a new page loses its execute right. `WellFormed` holds in
  every reachable state, in the middle of an operation too, and `PageTree` draws its consequences: the
  tables form a tree, absent entries hold the sanitized page, large pages are not executable under the
  execute-right callbacks, the hypervisor's own tables have no page-table level.
- **Virtual BARs** (`VirtualBar`). Writes to the BAR registers of passed-through devices move MMIO windows
  in the EPT, on top of the engine above.
- **VT-d** (`VtdEntries`, `VtdCalls`, `VtdTables`, `VtdProtocol`). Bit-exact entries and descriptors; root,
  context and interrupt tables edited in place, each call recording its stores, flushes and requests;
  and the protocol these make together with hardware that fills its caches, drops entries and executes
  requests at any moment, for any number of calls in progress. Terms are those of the Intel VT-d
  specification, sections 6.1 (Caching Mode), 6.5.2 (Queued Invalidation Interface) and 9 (entries).
- **Scheduler** (`Scheduler`). The locked sections of `schedule.c` with the policy of `sched_noop.c`, and
  their interleavings on any number of processors.
- **Numbers** (`Digits`, `Printer`, `Parser`, `RoundTrip`). The number printer, the number parsers, and
  printing followed by parsing.
- **UART FIFO** (`Fifo`). The overwriting ring buffer.

`Wrappers` holds the option type.

Preconditions that the code relies on and the model states:

- `mmu_add` is asked for a range with no mapping; every modification leaves an entry present, counting
  only the bits a mapping promises; the bits to clear include the page-size bit only if it is set again
  (`PageTree.PageSizeCleared` shows what happens otherwise); a modification lies below present PML4
  entries, where the code panics, and a deletion also below PML4 entries that hold the sanitized page;
  physical ranges end below 2^39; a mapped range lies in the space the tables were sized for.
- Translations leave out the page-size bit and, under the EPT execute-right callbacks, the execute bit. Sizes
  and all bits of pages are stated beside them (`PageSizes.Changed`). `mmu_add` does not always give the
  execute right it is asked for: `ExecutablePages.NewPageBits` says exactly when, before the call.
- BARs have any size. `VirtualBar.VbarCheckSound` shows that the bounds check of the code is right
  exactly up to 4 GByte; a larger one may pass it with a window whose end wraps, and then has no pages
  (`VirtualBar.WindowShape`).
- A device is added when it is absent and removed from the domain it is in, with no other call about the
  same device in progress, as the interface comments of `vtd.c` ask. Calls about different devices
  overlap freely, also when several find the root entry of their bus absent and each of them installs it.
- `sleep_thread`, `wake_thread` and `kick_thread` are called for vCPU threads, after `init_thread_data`.

## Model

| member | source | states |
|---|---|---|
| `PageEntry.BothUsersSupported` | hypervisor/arch/x86/page.c:398-409 | both memory_ops the hypervisor uses meet what the engine relies on: bit 0 alone makes an entry present, the page-size bit never does, table entries get bits 0 to 2; which of the two have page tables, large pages and execute-right callbacks |
| `PageEntry.VisibleOfCallbacks` | hypervisor/arch/x86/page.c:736-781 | setting or clearing the page-size bit and the tweak/recover callbacks change nothing a mapping promises |
| `PageEntry.StoredWord` | hypervisor/include/arch/x86/pgtable.h:33-291 | a stored word gives address and properties back through the masks, also through the masks of large pages |
| `PageEntry.ModifiedWord` | hypervisor/arch/x86/pagetable.c:203-232 | clearing and setting property bits of a word leaves its address field, and presence and page size depend on its property field only |
| `Paging.TranslateIsMap` | hypervisor/arch/x86/page.c:599-701 | following physical addresses from the PML4 table leads through the slots that the address itself picks |
| `Paging.OkFrame` | hypervisor/arch/x86/pagetable.c:332-867 | entries outside a range of blocks stay well formed with everything below them when only that range is edited |
| `Paging.MapFrame` | hypervisor/arch/x86/pagetable.c:332-867 | addresses outside an edited range of blocks keep their translation |
| `PagingSteps.ModifyLeafStep` | hypervisor/arch/x86/pagetable.c:203-232 | changing the property bits of one leaf is the flat modification of all its addresses |
| `PagingSteps.DeleteLeafStep` | hypervisor/arch/x86/pagetable.c:203-232 | sanitizing one leaf removes exactly its addresses |
| `PagingSteps.EstablishLeafStep` | hypervisor/arch/x86/pagetable.c:1060-1100 | a fresh leaf maps its block to consecutive physical addresses |
| `PagingSteps.ConstructStep` | hypervisor/arch/x86/pagetable.c:261-278 | putting a table of sanitized entries in place of an absent entry changes no translation |
| `PagingSteps.SplitStep` | hypervisor/arch/x86/pagetable.c:77-169 | the 512 parts of a split large page translate every address as the large page did, with the same visible properties, and nothing outside changes |
| `PagingSteps.SplitAddress` | hypervisor/arch/x86/pagetable.c:77-169 | address by address, a split keeps physical address and visible properties |
| `PagingRanges.BlockDone` | hypervisor/arch/x86/pagetable.c:332-867 | one turn of a level's loop extends the part of the range that is done, and leaves the rest ready |
| `PagingRanges.PageBounds` | hypervisor/arch/x86/pagetable.c:817-822 | rounding down and up gives the nearest multiples of the page size below and above |
| `PagingRanges.RangeHoldsBytes` | hypervisor/arch/x86/pagetable.c:1410-1417 | the pages the engine works on are exactly those that hold one of the bytes asked for, and the page of an unaligned empty range |
| `PagingRanges.WrappedRange` | hypervisor/arch/x86/pagetable.c:1410-1417 | a range that reaches the top of the 64-bit space has no pages, but for its first one if its end wraps into that page |
| `PagingRanges.ByteMapped` | hypervisor/arch/x86/pagetable.c:1378-1465 | a byte of a mapped range goes to its own place behind the physical base if and only if both bases lie alike in their pages |
| `PageSizes.EndsOfWhole` | hypervisor/arch/x86/pagetable.c:203-232 | a page that is covered whole ends with its old bits without those to clear, and those to set, or is gone |
| `PageSizes.SplitBits` | hypervisor/arch/x86/pagetable.c:77-169 | bit by bit: the 4-KByte parts of a split page are executable under the callbacks and have no page-size bit, every other bit and every bit of 2-MByte parts is as it was |
| `PageSizes.EndsOfNewPage` | hypervisor/arch/x86/pagetable.c:1060-1100 | a block that fits is mapped by one page of its size with the bits asked for, large ones with the page-size bit and without the execute bit under the callbacks |
| `PageSizes.RangesMeet` | hypervisor/arch/x86/pagetable.c:332-867 | the range so far and the next part of it change the page of an address as the whole range does |
| `PageRights.RightsTurn` | hypervisor/arch/x86/pagetable.c:1012-1153 | one turn of a loop that adds: effective_prot has lost the execute right exactly when a large page was made in the loop before, and the pages of the turn get it accordingly |
| `PageTable.PageTables.constructor` | hypervisor/arch/x86/page.c:555-577 | fresh tables are well formed and translate nothing |
| `PageTable.PageTables.GetPdptPage` | hypervisor/arch/x86/page.c:599-621 | picks the slot of the address and clears that table only; it must not be in use |
| `PageTable.PageTables.GetPdPage` | hypervisor/arch/x86/page.c:642-664 | the same for page directories |
| `PageTable.PageTables.GetPtPage` | hypervisor/arch/x86/page.c:685-701 | the same for page tables; only with the EPT callbacks |
| `PageTable.PageTables.SanitizePte` | hypervisor/arch/x86/mmu.c:523-539 | every entry of one table points at the sanitized page with all property bits clear, nothing else changes |
| `PageTable.PageTables.ConstructPgentry` | hypervisor/arch/x86/pagetable.c:261-278 | an entry references the slot of its address, whose table is sanitized |
| `PageTable.PageTables.LocalModifyOrDelPte` | hypervisor/arch/x86/pagetable.c:203-232 | one entry gets (old and not clr) or set with its address kept, or is sanitized |
| `PageTable.PageTables.SplitLargePage` | hypervisor/arch/x86/pagetable.c:77-169 | a 1-GByte or 2-MByte leaf becomes a table whose i-th entry maps its i-th part, with page size and execute bit as `PageSizes.SplitBits` says |
| `PageTable.PageTables.FillParts` | hypervisor/arch/x86/pagetable.c:144-160 | the loop of a split fills the 512 entries of one table with consecutive parts and leaves other tables alone |
| `PageTable.PageTables.ModifyOrDelPte` | hypervisor/arch/x86/pagetable.c:332-396 | carries a request out on the part of the range in one page table |
| `PageTable.PageTables.ModifyOrDelPde` | hypervisor/arch/x86/pagetable.c:450-564 | the same through one page directory, splitting 2-MByte pages the range covers in part |
| `PageTable.PageTables.ModifyOrDelPdpte` | hypervisor/arch/x86/pagetable.c:618-732 | the same through one page-directory-pointer table, splitting 1-GByte pages |
| `PageTable.PageTables.MmuModifyOrDel` | hypervisor/arch/x86/pagetable.c:798-867 | removes exactly the mappings of the pages that hold bytes of the range, or changes exactly their properties and no physical address; everything else translates as before; the size and all property bits of every page afterwards; the tables stay well formed; also when the end of the range wraps |
| `PageTable.PageTables.NewTable` | hypervisor/arch/x86/pagetable.c:1113-1127 | an absent entry gets a table of sanitized entries, at any level; no translation changes and the rest of the range stays ready |
| `PageTable.PageTables.AddPte` | hypervisor/arch/x86/pagetable.c:908-971 | maps the part of the range in one page table |
| `PageTable.PageTables.AddPde` | hypervisor/arch/x86/pagetable.c:1012-1153 | the same through one page directory, with 2-MByte leaves where aligned and allowed |
| `PageTable.PageTables.AddPdpte` | hypervisor/arch/x86/pagetable.c:1194-1335 | the same through one page-directory-pointer table, with 1-GByte leaves where aligned and allowed |
| `PageTable.PageTables.MmuAdd` | hypervisor/arch/x86/pagetable.c:1378-1465 | every page that holds bytes of the range translates to the page of the physical base plus its offset with the requested properties, every other address as before; the size and all property bits of every new page; the tables stay well formed |
| `PageTree.TablesFormATree` | hypervisor/arch/x86/page.c:599-701 | two reachable entries that reference the same table are the same entry |
| `PageTree.FreeSlotUnreferenced` | hypervisor/arch/x86/pagetable.c:1113-1117 | the slot a getter clears is referenced by no reachable entry, whenever all tables are well formed |
| `PageTree.MidwayWellFormed` | hypervisor/arch/x86/pagetable.c:332-867 | at every head of a loop, in the middle of an operation, all tables are well formed, so a getter that is called there wipes no table in use |
| `PageTree.AbsentIsSanitized` | hypervisor/arch/x86/mmu.c:490-539 | below the PML4 table an absent entry is the sanitized page's address with no property bit, so a set page-size bit implies presence |
| `PageTree.LargePagesNotExecutable` | hypervisor/arch/x86/page.c:736-781 | where the callbacks are in use and no modification makes a whole 2-MByte page executable, no large page is ever executable |
| `PageTree.ExecutableByModification` | hypervisor/arch/x86/pagetable.c:203-232 | a large page changed in place stays large, and stays non-executable if and only if the change does not set the execute bit |
| `PageTree.PageSizeCleared` | hypervisor/arch/x86/pagetable.c:203-232 | a large page changed in place stays a page if and only if its page-size bit is not cleared for good; otherwise its entry references the mapped memory as a table |
| `PageTree.NoPageTables` | hypervisor/arch/x86/page.c:398-409 | without get_pt_page no page table is ever reachable |
| `PageTree.LeafUnique` | hypervisor/arch/x86/pagetable.c:1503-1587 | at most one leaf covers an address |
| `PageTree.LeafTranslates` | hypervisor/arch/x86/pagetable.c:1503-1587 | the leaf that covers an address is where the address is translated |
| `PageLookup.LookupAddress` | hypervisor/arch/x86/pagetable.c:1503-1587 | returns the leaf that covers the address, with its size, and nothing exactly when the address is not mapped |
| `PageLookup.WalkPageTable` | hypervisor/arch/x86/pagetable.c:1614-1729 | the callback is called once for every leaf, for nothing else, with the leaf's size and in address order |
| `ExecutablePages.EndOfLeaf` | hypervisor/arch/x86/pagetable.c:1503-1587 | the walk for an address ends at the leaf that covers it, at its level and with its bits |
| `ExecutablePages.LeafOfEnd` | hypervisor/arch/x86/pagetable.c:1503-1587 | where the walk for an address ends at a page there is a reachable leaf with that level and those bits |
| `ExecutablePages.RightsAfter` | hypervisor/arch/x86/pagetable.c:798-867 | size and every bit of the page of any address after a modification or deletion: large pages that the range covers in part are split, 4-KByte pages that come from them were made executable under the callbacks, pages in the range are changed as asked for, all others keep their bits |
| `ExecutablePages.NewPageSize` | hypervisor/arch/x86/pagetable.c:1378-1465 | a new page is the largest that fits below the tables found there: large only where enabled, covered and aligned; 4 KByte everywhere if large pages are disabled |
| `ExecutablePages.NewPageBits` | hypervisor/arch/x86/pagetable.c:1012-1335 | every bit of a new page: as asked for, except that under the callbacks a large page is not executable, nor a 4-KByte page behind a large one of the same tables, because effective_prot is not reset; when that happens can be told before the call |
| `ExecutablePages.ExecutableIff` | hypervisor/arch/x86/pagetable.c:798-867 | after a modification or deletion of tables without executable large pages there is one if and only if the request is a modification that sets the execute bit and covers a 2-MByte block of a large page whole |
| `ExecutablePages.LastPageNotExecutable` | hypervisor/arch/x86/pagetable.c:1034-1139 | 2 MByte and 4 KByte of executable memory added to empty tables: the last page is not executable |
| `ExecutablePages.ModifiedLargePageExecutable` | hypervisor/arch/x86/pagetable.c:798-867 | a table with one 2-MByte page and a request accepted by mmu_modify_or_del that leaves the page large and executable |
| `Mmu.HvAccessMemoryRegionUpdate` | hypervisor/arch/x86/mmu.c:704-745 | clears the user bit of exactly the 2-MByte pages that cover the region; the request is always 2-MByte aligned |
| `Mmu.RegionPages` | hypervisor/arch/x86/mmu.c:704-745 | those are the 2-MByte pages that hold some byte of the region |
| `Mmu.LowRamEnd` | hypervisor/arch/x86/mmu.c:849-868 | finds the end of the highest RAM region that ends below 4 GByte |
| `Mmu.ClearBits` | hypervisor/arch/x86/mmu.c:870-942 | a 2-MByte aligned request to clear bits that keeps every page present |
| `Mmu.SetAttributes` | hypervisor/arch/x86/mmu.c:870-942 | the four attribute requests add up to: cacheable RAM, hypervisor image closed to users, hypervisor code executable |
| `Mmu.UnmapGuards` | hypervisor/arch/x86/mmu.c:946-973 | exactly the guard pages are unmapped |
| `Mmu.InitPaging` | hypervisor/arch/x86/mmu.c:763-984 | panics exactly when the end of memory is out of bounds; otherwise the whole address space is the identity map with the final properties of every address, without the guard pages |
| `Mmu.FinalMap` | hypervisor/arch/x86/mmu.c:763-984 | the final map bit by bit: identity but for the guard pages; cacheable where there is RAM or the image, closed to user accesses in the image, executable in its code, and nowhere else |
| `VirtualBar.VbarCheckSound` | hypervisor/dm/vpci/vdev.c:315-329 | the bounds check keeps every window a guest can program in the MMIO space if and only if the BAR is at most 4 GByte |
| `VirtualBar.VbarCheckEscape` | hypervisor/dm/vpci/vdev.c:315-329 | an 8-GByte BAR, masks and register contents for which the code keeps a base although the window is outside |
| `VirtualBar.WindowShape` | hypervisor/dm/vpci/pci_pt.c:143-229 | the pages of a BAR's window are those of its range, and none at all if a wrapped end has taken the range out of the MMIO space |
| `VirtualBar.BarSizeFromMask` | hypervisor/dm/vpci/pci_pt.c:496-528 | the lowest bit that sticks is the size of the BAR, and the documented formula gives the same |
| `VirtualBar.RegistersApart` | hypervisor/dm/vpci/vdev.c:266-285 | BAR registers are the dwords from offset 16 of a device's configuration space; different BARs have different ones |
| `VirtualBar.BaseExpressed` | hypervisor/dm/vpci/vdev.c:355-434 | the base read from registers is the address whose lower half is the address bits of the lower register and whose upper half those of the upper one |
| `VirtualBar.CheckedFollows` | hypervisor/dm/vpci/vdev.c:355-434 | a base is the address its registers express if that passes the bounds check, and 0 if it does not, if no address is expressed, or if the size is probed |
| `VirtualBar.WritableBits` | hypervisor/dm/vpci/vdev.c:460-506 | a written register has the bits of the value where they are writable and its fixed bits elsewhere |
| `VirtualBar.WindowBytes` | hypervisor/dm/vpci/pci_pt.c:143-229 | a window is the pages that hold bytes of the BAR, each shown with read and write rights at its place in the device's memory |
| `VirtualBar.FirstByteShown` | hypervisor/dm/vpci/pci_pt.c:191-229 | the guest finds the first byte of the device at the base exactly if guest and physical base lie alike in their pages |
| `VirtualBar.EptProtBits` | hypervisor/arch/x86/guest/ept.c:140-166 | a mapping gets the snoop bit if its memory type is not uncached, and no other bit |
| `VirtualBar.BarTypeIsMemory` | hypervisor/dm/vpci/pci_pt.c:83-110 | bits 0 to 2 of a physical BAR tell 32-bit and 64-bit memory BARs from all others |
| `VirtualBar.PbarHalves` | hypervisor/dm/vpci/pci_pt.c:389-421 | the physical address is the address bits of the register, with the next register above it for a 64-bit BAR |
| `VirtualBar.BarSizeProbed` | hypervisor/dm/vpci/pci_pt.c:465-528 | a power of two above which the probed registers keep their bits is the size found |
| `VirtualBar.NewBarSize` | hypervisor/dm/vpci/pci_pt.c:493-531 | the size of a new BAR is a whole number of pages, at least the probed size and less than a page more |
| `VirtualBar.ProgrammedIsProgrammable` | hypervisor/dm/vpci/vdev.c:355-434 | a base read from BAR registers never has all ones in its upper half |
| `VirtualBar.MoveKeepsOnlyWindows` | hypervisor/dm/vpci/pci_pt.c:253-300 | after a window has moved the guest still sees nothing but BARs at their current windows, overlaps included |
| `VirtualBar.MoveKeepsAllWindows` | hypervisor/dm/vpci/pci_pt.c:253-300 | while windows are disjoint before and after, every BAR still shows its whole window |
| `VirtualBar.NewBarsOk` | hypervisor/dm/vpci/pci_pt.c:440-528 | a BAR set up from a physical one is a valid BAR, and the others stay valid |
| `VirtualBar.Vpci.constructor` | hypervisor/dm/vpci/pci_pt.c:344-381 | a VM's devices before init_vdev_pt: BARs without type, size or base, configuration space all zero |
| `VirtualBar.Vpci.PciVdevReadBar` | hypervisor/dm/vpci/vdev.c:266-285 | reads the register of the BAR in the configuration space of its device |
| `VirtualBar.Vpci.PciVdevUpdateBarBase` | hypervisor/dm/vpci/vdev.c:355-434 | the base becomes the address that one or two registers express, or 0 for size probing, absent BARs and addresses out of bounds; no other BAR changes |
| `VirtualBar.Vpci.PciVdevWriteBar` | hypervisor/dm/vpci/vdev.c:460-506 | the register takes the writable bits of the value, the base of the BAR or of the lower half of its pair follows |
| `VirtualBar.Vpci.EptDelMr` | hypervisor/arch/x86/guest/ept.c:300-348 | unmaps exactly the pages of a range of guest addresses |
| `VirtualBar.Vpci.EptAddMr` | hypervisor/arch/x86/guest/ept.c:123-182 | maps exactly the pages of a range of guest addresses, with snooping unless uncached |
| `VirtualBar.Vpci.VdevPtUnmapMemVbar` | hypervisor/dm/vpci/pci_pt.c:143-169 | the window of a BAR with a base disappears, all else is as before |
| `VirtualBar.Vpci.VdevPtMapMemVbar` | hypervisor/dm/vpci/pci_pt.c:191-229 | the window of a BAR with a base shows the device, whatever was mapped there before |
| `VirtualBar.Vpci.VdevPtWriteVbar` | hypervisor/dm/vpci/pci_pt.c:253-300 | moves the window from the old to the new base, ignores BARs without type, and keeps both invariants on what the guest sees |
| `VirtualBar.Vpci.GuestWrites` | hypervisor/dm/vpci/pci_pt.c:253-300 | after any sequence of register writes the guest sees nothing but BARs at their current windows, and all of every window if windows never overlapped on the way |
| `VirtualBar.Vpci.ProgramBar` | hypervisor/dm/vpci/pci_pt.c:253-300 | writing an address in the MMIO space to the registers of a memory BAR, in one or two writes of either order, places the BAR there and shows all of it |
| `VirtualBar.Vpci.InitVdevPt` | hypervisor/dm/vpci/pci_pt.c:344-548 | every memory BAR with an address becomes a copy of the physical one with its size, programmed to the configured base; all others, other devices' BARs and their registers stay as they are; the guest sees windows only |
| `VirtualBar.Vpci.InitBar` | hypervisor/dm/vpci/pci_pt.c:382-545 | one turn of that loop: one BAR is set up and programmed, one or two entries and registers change, its window is shown |
| `VtdEntries.SliceSet` | hypervisor/arch/x86/vtd.c:220-268 | setting a field of an entry sets it to as much of the value as fits and no bit outside it |
| `VtdEntries.WidthCodes` | hypervisor/arch/x86/vtd.c:1101-1140 | widths of 39, 48 and 57 bits get the codes the architecture defines |
| `VtdEntries.DomainsApart` | hypervisor/arch/x86/vtd.c:767-771 | the domain is one above the VM's identifier; different VMs have different domains, and domain 0 belongs to the wrapped last identifier only |
| `VtdEntries.SourcesApart` | hypervisor/arch/x86/vtd.c:2490-2492 | source identifiers are equal exactly for equal bus, device and function |
| `VtdEntries.SourceReadsBack` | hypervisor/arch/x86/vtd.c:2490-2492 | a source identifier has the bus in its upper byte and device and function in its lower one |
| `VtdEntries.RootReadsBack` | hypervisor/arch/x86/vtd.c:2344-2358 | a root entry is present and points to the table it was made from |
| `VtdEntries.ContextReadsBack` | hypervisor/arch/x86/vtd.c:2381-2401 | a context entry reads back as its domain, address-width code, translation type and page-aligned table pointer |
| `VtdEntries.CtpIsTablePointer` | hypervisor/arch/x86/vtd.c:2367-2372 | the pointer the code extracts from a root entry is the one the hardware follows |
| `VtdEntries.EffectiveIrteFields` | hypervisor/arch/x86/vtd.c:2862-2886 | an assigned interrupt entry is present, checks its source, and keeps the caller's vector, destination and delivery fields |
| `VtdEntries.ContextCacheReadsBack` | hypervisor/arch/x86/vtd.c:1533-1556 | context-cache descriptors read back as global, or as device-selective with their domain, source and function mask |
| `VtdEntries.IotlbReadsBack` | hypervisor/arch/x86/vtd.c:1675-1702 | IOTLB descriptors read back as global or as selective for their domain |
| `VtdEntries.IecReadsBack` | hypervisor/arch/x86/vtd.c:1911-1927 | interrupt-entry-cache descriptors read back as global or with their index and mask |
| `VtdEntries.WaitReadsBack` | hypervisor/arch/x86/vtd.c:1460-1462 | the wait descriptor makes the hardware store the completion status at its address |
| `VtdEntries.DescriptorMade` | hypervisor/arch/x86/vtd.c:1538-1570 | a request is made for exactly the granularities the code knows |
| `VtdTables.DecodesDevices` | hypervisor/arch/x86/vtd.c:2288-2547 | the walk of the hardware, by the two bytes of the source identifier, finds exactly the devices added and not removed, each with its assignment |
| `VtdTables.IndexOfDevice` | hypervisor/arch/x86/vtd.c:2344-2381 | the context entry the code edits for a device is the one the hardware reads for its source identifier |
| `VtdTables.OneContextChanged` | hypervisor/arch/x86/vtd.c:2376-2406 | editing the context entry of one device disturbs no other device |
| `VtdTables.DmarUnit.AddIommuDevice` | hypervisor/arch/x86/vtd.c:2288-2416 | the device is found from now on with its VM's domain, page-aligned table and width code 2, all others as before; the entry stored is the one the hardware reads for the bytes of its bus and function; stores and flushes are those of the protocol for that source, in its order |
| `VtdTables.DmarUnit.RemoveIommuDevice` | hypervisor/arch/x86/vtd.c:2449-2547 | the device is not found any more, all others as before; clear, flush, context invalidation, IOTLB invalidation, in that order, all for the source identifier with the bytes of its bus and function, whose entry is cleared |
| `VtdTables.DmarUnit.DmarIssueQiRequest` | hypervisor/arch/x86/vtd.c:1421-1467 | the request and a wait descriptor fill two neighbouring slots, and the tail moves past both |
| `VtdCalls.PairOfSlots` | hypervisor/arch/x86/vtd.c:1436-1467 | a request and its wait descriptor take an even slot and the next one, and the tail after them is again such a place |
| `VtdTables.DmarUnit.DmarInvalidContextCache` | hypervisor/arch/x86/vtd.c:1525-1589 | issues the context-cache request it is asked for, or none for an unknown granularity |
| `VtdTables.DmarUnit.DmarInvalidIotlb` | hypervisor/arch/x86/vtd.c:1664-1735 | issues the IOTLB request it is asked for, or none |
| `VtdTables.DmarUnit.DmarInvalidIec` | hypervisor/arch/x86/vtd.c:1904-1946 | issues the interrupt-entry-cache request it is asked for |
| `VtdTables.DmarUnit.DmarAssignIrte` | hypervisor/arch/x86/vtd.c:2824-2910 | one interrupt entry is replaced, upper half first, flushed and invalidated |
| `VtdTables.DmarUnit.DmarFreeIrte` | hypervisor/arch/x86/vtd.c:2935-2979 | one interrupt entry loses its present bit only, is flushed and invalidated |
| `VtdProtocol.StepKeeps` | hypervisor/arch/x86/vtd.c:1421-1494 | every step of every call and of the hardware keeps the protocol's invariant |
| `VtdProtocol.AccessRootKeeps` | hypervisor/arch/x86/vtd.c:2344-2358 | calls for different devices that install the root entry of one bus at the same time write the same entry, and one that is present stays as it is |
| `VtdProtocol.RunKeeps` | hypervisor/arch/x86/vtd.c:2288-2979 | the invariant holds in every state of every run, with any number of calls in progress and any number of them installing the same root entry |
| `VtdProtocol.CachesCoherent` | hypervisor/arch/x86/vtd.c:2288-2979 | a cached entry is present and equals what the hardware would read, or its invalidation is still to come; adding a device needs none |
| `VtdProtocol.ContextNeverTorn` | hypervisor/arch/x86/vtd.c:2404-2412 | whenever a cache line is written back, the hardware never sees a present context or root entry of which one half is missing |
| `VtdProtocol.AssignTearsExactly` | hypervisor/arch/x86/vtd.c:2889-2909 | the hardware can read a present interrupt entry that is neither the old nor the new one, during an assignment, if and only if the old entry is present and both halves change; never after the entry was freed |
| `VtdProtocol.TornIsMixed` | hypervisor/arch/x86/vtd.c:2889-2909 | what is seen torn is the new upper half with the old lower half, and its invalidation is still to come |
| `VtdProtocol.TearingPath` | hypervisor/arch/x86/vtd.c:2889-2909 | from every such state three steps lead to a torn entry in memory, and a fourth caches it |
| `VtdProtocol.RemovedIsGone` | hypervisor/arch/x86/vtd.c:2500-2543 | when a removal returns, neither memory nor context cache nor IOTLB has anything of the device |
| `VtdProtocol.NothingReappears` | hypervisor/arch/x86/vtd.c:2500-2543 | in every run that stays so until the device is added again |
| `VtdProtocol.InvalidationsExact` | hypervisor/arch/x86/vtd.c:2532-2543 | the two invalidations drop all that is cached of a device if and only if it was cached in the domain they name |
| `VtdProtocol.IotlbFirstLeavesTranslation` | hypervisor/arch/x86/vtd.c:2532-2543 | with the IOTLB invalidated first a translation can survive |
| `VtdProtocol.FlushLastLeavesEntry` | hypervisor/arch/x86/vtd.c:2521-2543 | with the flush last the old entry can be cached again |
| `VtdProtocol.NoDescriptorLost` | hypervisor/arch/x86/vtd.c:1436-1467 | a descriptor is never stored over one the hardware has not executed, and no pair straddles the end of the queue |
| `VtdProtocol.QueueIdle` | hypervisor/arch/x86/vtd.c:1421-1494 | between requests the head has caught up with the tail, which is a multiple of 32 below 4096 |
| `VtdProtocol.RequestCompletes` | hypervisor/arch/x86/vtd.c:1470-1494 | the wait ends only after the request and then its wait descriptor were executed, and two steps of the hardware suffice |
| `Scheduler.SchedControl.SleepThread` | hypervisor/common/schedule.c:707-752 | the thread is blocked and forgotten by the policy; if it was running the flag is set and a remote processor signalled |
| `Scheduler.SchedControl.WakeThread` | hypervisor/common/schedule.c:780-826 | a blocked thread becomes runnable, is known to the policy if it knew none, the flag is set and a remote processor signalled; any other wake-up changes nothing |
| `Scheduler.SchedControl.KickThread` | hypervisor/common/schedule.c:849-891 | a remote processor is signalled if the thread is running or runnable, a reschedule requested if it is runnable, nothing done if it is blocked |
| `Scheduler.SchedControl.MakeRescheduleRequest` | hypervisor/common/schedule.c:493-528 | sets the flag, and signals the processor if it is another one |
| `Scheduler.SchedControl.InitThreadData` | hypervisor/common/schedule.c:433-466 | the thread is blocked |
| `Scheduler.SchedControl.StartThread` | hypervisor/common/schedule.c:918-946 | the idle thread becomes current and running |
| `Scheduler.SchedControl.ScheduleLocked` | hypervisor/common/schedule.c:593-653 | the locked section of schedule: the thread the policy knows, else the idle one, becomes current and running, the flag is cleared, the previous thread becomes runnable if it was running |
| `Scheduler.SchedControl.SchedNoopPickNext` | hypervisor/common/sched_noop.c:84-107 | the policy picks the ready vCPU thread, else the idle thread |
| `Scheduler.SchedControl.SchedNoopSleep` | hypervisor/common/sched_noop.c:128-141 | the policy forgets the thread if it is the one it knows |
| `Scheduler.SchedControl.SchedNoopWake` | hypervisor/common/sched_noop.c:162-175 | the policy remembers the thread if it knows none |
| `Scheduler.RemoteRequestsSignal` | hypervisor/common/schedule.c:493-528 | a processor is signalled exactly when another one puts its running thread to sleep, wakes a blocked one or kicks one that is ready or running; the flag is set for all but the kick of a running thread |
| `Scheduler.ReadyIsServed` | hypervisor/common/schedule.c:593-956 | a ready vCPU thread is running as the current thread, or NEED_RESCHEDULE is set |
| `Scheduler.StepKeeps` | hypervisor/common/schedule.c:593-956 | every locked section keeps: flag set if the processor does not run what it should; only the current thread is running; a vCPU thread is known to the policy exactly while it is not blocked; the thread read before the lock is still current under it |
| `Scheduler.ScheduleSettles` | hypervisor/common/schedule.c:593-653 | after schedule the processor runs what the policy picks, its flag is clear and the replaced thread is not running |
| `Scheduler.RunKeeps` | hypervisor/common/schedule.c:593-956 | all of this in every interleaving on every processor |
| `Scheduler.WakeStarts` | hypervisor/common/schedule.c:780-826 | in every run a wake-up of a blocked vCPU thread makes it ready, known to the policy and due, and any other changes nothing |
| `Scheduler.WakeIsServed` | hypervisor/common/schedule.c:780-826 | from the wake-up of a blocked vCPU thread until it is put to sleep it is running or about to be scheduled, and after the next schedule it is running |
| `Scheduler.SleepIsServed` | hypervisor/common/schedule.c:707-752 | from a sleep until the next wake-up the vCPU thread is blocked and unknown to the policy, and after the next schedule its processor runs the idle thread |
| `Digits.NumeralValue` | libs/debug/printf.c:393-410 | the numeral of a number consists of digits and means the number |
| `Digits.NumeralFits` | libs/debug/printf.c:357-360 | the numbers with at most n digits are exactly those below the n-th power of the base |
| `Digits.TableDigit` | libs/debug/printf.c:319 | the digit tables give the digits their values, letters in upper or lower case as asked for |
| `Printer.FormattedLength` | libs/debug/printf.c:227-298 | output is as long as the longest of width, precision, and prefix with digits |
| `Printer.FormattedPlaces` | libs/debug/printf.c:227-298 | where blanks, prefix, zeros and digits stand for every combination of flags |
| `Printer.SignPlace` | libs/debug/printf.c:363-392 | the sign of a decimal number stands behind the blanks: minus for negative numbers, else plus or blank if asked for, else a digit |
| `Printer.PrefixPlace` | libs/debug/printf.c:324-335 | 0x or 0X stands in front of zero in the alternate form, and of no other number |
| `Printer.PrintParam.FormatNumber` | libs/debug/printf.c:227-298 | emits padding, prefix, zeros and digits in the order the flags ask for |
| `Printer.PrintParam.DecimalDigits` | libs/debug/printf.c:355-416 | the two digit loops write the numeral of any 64-bit number and stay in their 20-byte buffer |
| `Printer.PrintParam.PrintDecimal` | libs/debug/printf.c:355-421 | emits sign and numeral of the value, the smallest 64-bit number included |
| `Printer.PrintParam.Pow2Digits` | libs/debug/printf.c:338-346 | the digit loop writes the numeral in base 2, 4, 8 or 16 and stays in its 22-byte buffer |
| `Printer.PrintParam.PrintPow2` | libs/debug/printf.c:300-353 | emits the numeral in that base, with the alternate prefix for zero only, 0 or 0x |
| `Printer.Pow2BufferSuffices` | libs/debug/printf.c:304-305 | 22 bytes hold every 64-bit number if and only if a digit stands for at least three bits |
| `Parser.CutoffExact` | libs/debug/string.c:59-70 | the test before each digit finds exactly the sums above the limit |
| `Parser.StrtolDeci` | libs/debug/string.c:15-89 | skips blanks, takes one sign, reads digits, and returns their value or the nearest limit, without reading past the end |
| `Parser.ReadDecimal` | libs/debug/string.c:59-82 | the digit loop: the value of the leading digits or the limit |
| `Parser.StrtoulHex` | libs/debug/string.c:109-153 | the same for hexadecimal digits with an optional 0x |
| `Parser.ReadHex` | libs/debug/string.c:130-152 | the digit loop of strtoul_hex: the value of the leading digits or the limit |
| `RoundTrip.DecimalRoundTrip` | libs/debug/printf.c:355-421 | for every width, precision and set of flags strtol_deci returns the number that was printed, or the largest long if that is smaller |
| `RoundTrip.LongRoundTrip` | libs/debug/string.c:15-89 | a signed 64-bit number comes back unchanged |
| `RoundTrip.HexRoundTrip` | libs/debug/printf.c:300-353 | strtoul_hex returns the masked number that was printed |
| `RoundTrip.LongSaturates` | libs/debug/string.c:59-87 | behind blanks and a sign, strtol_deci reads digits up to the first other character as their value, cut off at the limits of the type |
| `RoundTrip.HexSaturates` | libs/debug/string.c:130-152 | behind blanks and a prefix, strtoul_hex reads digits up to the first other character as their value, cut off at the limit of the type |
| `Fifo.VuartFifo.FifoReset` | libs/debug/vuart.c:47-52 | the FIFO is empty |
| `Fifo.VuartFifo.FifoPutchar` | libs/debug/vuart.c:54-64 | appends the character; a full FIFO drops its oldest one and nothing else |
| `Fifo.VuartFifo.FifoGetchar` | libs/debug/vuart.c:66-76 | removes and returns the oldest character, or returns -1 and changes nothing |
| `Fifo.VuartFifo.FifoNumchars` | libs/debug/vuart.c:78-81 | the number of characters held |
| `Fifo.PutFull` | libs/debug/vuart.c:54-64 | in a full buffer the oldest character lies where the next one is stored |
| `Fifo.HoldsNewest` | libs/debug/vuart.c:47-76 | after any run a FIFO holds the newest characters put into it, in order, and what was read was put before all of them, in order |
| `Fifo.OnePerOverwrite` | libs/debug/vuart.c:47-76 | what was read, what is held and one character for every put into a full FIFO add up to all that was put |
| `Fifo.NothingLost` | libs/debug/vuart.c:47-76 | as long as no put meets a full buffer, what was read and what is held are all that was put, in order |

## Left out

- Inline assembly, registers, TLB and cache instructions, logging, spin waits and timeouts: hardware effects without logic; the flush of a cache line appears in the VT-d model only, the page walker's in neither.
- Bodies of loops are methods of their own (names ending in `At`), so that each is proved by itself; the digit loops and locked sections likewise.
- PageTable.PageTables.MmuModifyOrDel: the panic of a modification at an absent PML4 entry is excluded by its precondition; so is a deletion at one that does not hold the sanitized page, for which the code has no check.
- PageTree.LargePagesNotExecutable: holds where no modification sets the execute bit on a whole 2-MByte block of a large page; `ExecutablePages.ExecutableIff` says that it fails exactly then, because the code leaves such a page large.
- Mmu.InitPaging: takes the end of memory, the E820 entries, the place of the image and the guard pages as parameters; enabling paging and sanitizing the sanitized page itself are not modelled.
- VirtualBar.Vpci.InitVdevPt: takes the values of the physical BARs and what they return when probed as parameters; the writes that probe and restore them are not modelled.
- Scheduler.SchedControl.ScheduleLocked: the switch of stacks after the lock is a step of the interleaving model, without register contents.
- VtdProtocol.RequestCompletes: does not say that the hardware ever takes its steps; a timeout only logs a message in the code.
- Caches of second-level page tables, invalidation on EPT changes, fault records, the enabling sequences of a DMAR unit and the selection among several units: other parts of `vtd.c`.
- `create_iommu_domain` and `destroy_iommu_domain`: plain record assignments.
- Bit masks of low bits in the printer are written as remainders. Printer.PrintParam.PrintPow2: shifts of 1 to 4 and numbers that fit the buffer of the code; its only callers pass 4.
- The format scanner, character and string conversions, and output into a buffer that is full: output has room for everything.
- E820 editing, shell, console, physical UART, interrupt controllers, boot and UART register emulation: plumbing and per-branch facts.
