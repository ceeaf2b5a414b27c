/** The paging structures of one user in memory, and the engine that edits them in place
    (pagetable.c, with the table slots of page.c and the sanitizing of mmu.c).

    A pointer to an entry is a level and an index into that level's array. */
module PageTable {
  import opened PageEntry
  import opened Paging
  import opened Wrappers
  import opened PagingSteps
  import opened PagingRanges
  import opened PageSizes
  import opened PageRights

  datatype MrType = MR_MODIFY | MR_DEL

  function RequestOf(mrType: MrType, protSet: Prot, protClr: Prot): Request {
    if mrType.MR_MODIFY? then Modify(protSet, protClr) else Delete
  }

  class PageTables {
    const c: Config
    const pml4: array<Entry>
    const pdpt: array<Entry>
    const pd: array<Entry>
    const pt: array<Entry>

    /** Fresh arrays for an address space, with the PML4 table cleared (get_pml4_page). */
    constructor (config: Config)
      requires ConfigOk(config)
      ensures c == config && Separate() && WellFormed(c, T())
      ensures fresh(pml4) && fresh(pdpt) && fresh(pd) && fresh(pt)
      ensures forall a :: 0 <= a < ADDRESS_LIMIT ==> Translate(c, T(), a) == None
    {
      c := config;
      pml4 := new Entry[PTRS_PER_TABLE](_ => Entry(0, {}));
      pdpt := new Entry[PTRS_PER_TABLE * PagesFor(config.space, PML4E_SIZE)](_ => Entry(0, {}));
      pd := new Entry[PTRS_PER_TABLE * PagesFor(config.space, PDPTE_SIZE)](_ => Entry(0, {}));
      pt := new Entry[if config.ops.hasPtPage then PTRS_PER_TABLE * PagesFor(config.space, PDE_SIZE) else 0](_ => Entry(0, {}));
      new;
      ClearedRoot(c, T());
    }

    /** The four arrays are different memory. */
    ghost predicate Separate() {
      pml4 != pdpt && pml4 != pd && pml4 != pt && pdpt != pd && pdpt != pt && pd != pt
    }

    function Table(level: Level): array<Entry> {
      match level
      case 0 => pml4
      case 1 => pdpt
      case 2 => pd
      case 3 => pt
    }

    /** The contents of the tables. */
    ghost function T(): Tables
      reads pml4, pdpt, pd, pt
    {
      [pml4[..], pdpt[..], pd[..], pt[..]]
    }

    // ---- Entries and slots ----

    /** *pte */
    function Pgentry(level: Level, k: nat): (e: Entry)
      requires k < |T()[level]|
      reads pml4, pdpt, pd, pt
      ensures e == T()[level][k]
    {
      Table(level)[k]
    }

    method SetPgentry(level: Level, k: nat, e: Entry)
      requires Separate() && k < |T()[level]|
      modifies Table(level)
      ensures T() == SetEntry(old(T()), level, k, e)
    {
      Table(level)[k] := e;
    }

    /** memset of one table page to zero. */
    method ZeroPage(level: Level, page: nat)
      requires Separate() && PTRS_PER_TABLE * page + PTRS_PER_TABLE <= |T()[level]|
      modifies Table(level)
      ensures T() == old(T())[level := T()[level]]
      ensures SameButTable(old(T())[level], T()[level], page)
      ensures TableFilled(T()[level], page, Entry(0, {}))
    {
      var table := Table(level);
      forall i | PTRS_PER_TABLE * page <= i < PTRS_PER_TABLE * page + PTRS_PER_TABLE {
        table[i] := Entry(0, {});
      }
      assert T()[0] == if level == 0 then T()[0] else old(T())[0];
      assert T()[1] == if level == 1 then T()[1] else old(T())[1];
      assert T()[2] == if level == 2 then T()[2] else old(T())[2];
      assert T()[3] == if level == 3 then T()[3] else old(T())[3];
    }

    /** The slot of an address must not hold a table that is in use. */
    ghost predicate SlotFree(level: Level, page: nat)
      requires level > 0
      reads pml4, pdpt, pd, pt
    {
      && PTRS_PER_TABLE * page + PTRS_PER_TABLE <= |T()[level]|
      && page < |T()[level - 1]| && !ReferencesTable(c, level - 1, T()[level - 1][page])
    }

    method GetPdptPage(gpa: nat) returns (page: nat)
      requires Separate() && SlotFree(IA32E_PDPT, Index(IA32E_PML4, gpa))
      modifies pdpt
      ensures page == Index(IA32E_PML4, gpa)
      ensures T() == old(T())[1 := T()[1]]
      ensures SameButTable(old(T())[1], T()[1], page) && TableFilled(T()[1], page, Entry(0, {}))
    {
      page := gpa / PML4E_SIZE;
      ZeroPage(IA32E_PDPT, page);
    }

    method GetPdPage(gpa: nat) returns (page: nat)
      requires Separate() && SlotFree(IA32E_PD, Index(IA32E_PDPT, gpa))
      modifies pd
      ensures page == Index(IA32E_PDPT, gpa)
      ensures T() == old(T())[2 := T()[2]]
      ensures SameButTable(old(T())[2], T()[2], page) && TableFilled(T()[2], page, Entry(0, {}))
    {
      page := gpa / PDPTE_SIZE;
      ZeroPage(IA32E_PD, page);
    }

    /** ppt_mem_ops has no get_pt_page: there, nothing may call this. */
    method GetPtPage(gpa: nat) returns (page: nat)
      requires c.ops.hasPtPage
      requires Separate() && SlotFree(IA32E_PT, Index(IA32E_PD, gpa))
      modifies pt
      ensures page == Index(IA32E_PD, gpa)
      ensures T() == old(T())[3 := T()[3]]
      ensures SameButTable(old(T())[3], T()[3], page) && TableFilled(T()[3], page, Entry(0, {}))
    {
      page := gpa / PDE_SIZE;
      ZeroPage(IA32E_PT, page);
    }

    method SanitizePteEntry(level: Level, k: nat)
      requires Separate() && k < |T()[level]|
      modifies Table(level)
      ensures T() == SetEntry(old(T()), level, k, Sanitized(c))
    {
      SetPgentry(level, k, Sanitized(c));
    }

    method SanitizePte(level: Level, page: nat)
      requires Separate() && PTRS_PER_TABLE * page + PTRS_PER_TABLE <= |T()[level]|
      modifies Table(level)
      ensures T() == old(T())[level := T()[level]]
      ensures SameButTable(old(T())[level], T()[level], page)
      ensures TableFilled(T()[level], page, Sanitized(c))
    {
      var i := 0;
      while i < PTRS_PER_TABLE
        invariant i <= PTRS_PER_TABLE
        invariant T() == old(T())[level := T()[level]]
        invariant SameButTable(old(T())[level], T()[level], page)
        invariant forall k :: PTRS_PER_TABLE * page <= k < PTRS_PER_TABLE * page + i ==> T()[level][k] == Sanitized(c)
      {
        SanitizePteEntry(level, PTRS_PER_TABLE * page + i);
        i := i + 1;
      }
    }

    /** Make entry k of a level reference the table in a slot, emptied first. */
    method ConstructPgentry(level: Level, k: nat, page: nat)
      requires Separate() && level < 3 && k < |T()[level]|
      requires PTRS_PER_TABLE * page + PTRS_PER_TABLE <= |T()[level + 1]|
      modifies Table(level), Table(level + 1)
      ensures T() == old(T())[level := old(T())[level][k := TableEntry(c, level, page)]][level + 1 := T()[level + 1]]
      ensures SameButTable(old(T())[level + 1], T()[level + 1], page)
      ensures TableFilled(T()[level + 1], page, Sanitized(c))
    {
      SanitizePte(level + 1, page);
      SetPgentry(level, k, Entry(Base(c, level + 1) + page * PAGE_SIZE, c.ops.defaultRight));
    }

    method LocalModifyOrDelPte(level: Level, k: nat, protSet: Prot, protClr: Prot, mrType: MrType)
      requires Separate() && k < |T()[level]|
      modifies Table(level)
      ensures T() == SetEntry(old(T()), level, k, LocalResult(c, old(T())[level][k], RequestOf(mrType, protSet, protClr)))
    {
      if mrType == MR_MODIFY {
        var newPte := Pgentry(level, k);
        newPte := newPte.(prot := newPte.prot - protClr);
        newPte := newPte.(prot := newPte.prot + protSet);
        SetPgentry(level, k, newPte);
      } else {
        SanitizePteEntry(level, k);
      }
    }

    /** Replace the large page of entry k by a table that maps its parts. */
    method SplitLargePage(level: Level, k: nat, vaddr: nat)
      requires Separate() && Supported(c.ops)
      requires level == IA32E_PDPT || (level == IA32E_PD && c.ops.hasPtPage)
      requires k == Index(level, vaddr) && Ok(c, T(), level, k) && Sized(c, T())
      requires Present(c.ops, T()[level][k]) && MapsPage(level, T()[level][k])
      modifies Table(level), Table(level + 1)
      ensures TableInstalled(c, old(T()), T(), level, k)
      ensures SplitEntries(c, T()[level + 1], level, k, old(T())[level][k])
    {
      var pte := Pgentry(level, k);
      var paddr, paddrinc, refProt, page;
      ghost var t0 := T();
      var child: Level := level + 1;
      SplitRoom(c, t0, level, k);
      AlignedAddress(level, pte.paddr);
      hide T, Ok, Sized;
      if level == IA32E_PDPT {
        paddr := pte.paddr % PADDR_LIMIT / PDPTE_SIZE * PDPTE_SIZE;
        paddrinc := PDE_SIZE;
        refProt := pte.prot;
        page := GetPdPage(vaddr);
      } else {
        paddr := pte.paddr % PADDR_LIMIT / PDE_SIZE * PDE_SIZE;
        paddrinc := PTE_SIZE;
        refProt := pte.prot - PAGE_PS;
        refProt := RecoverExeRight(c.ops, refProt);
        page := GetPtPage(vaddr);
      }
      FillParts(child, page, paddr, paddrinc, refProt);
      refProt := c.ops.defaultRight;
      SetPgentry(level, k, Entry(Base(c, child) + page * PAGE_SIZE, refProt));
    }

    /** The loop of split_large_page. */
    method FillParts(level: Level, page: nat, paddrStart: nat, paddrinc: nat, refProt: Prot)
      requires Separate() && PTRS_PER_TABLE * page + PTRS_PER_TABLE <= |T()[level]|
      modifies Table(level)
      ensures T() == old(T())[level := T()[level]]
      ensures SameButTable(old(T())[level], T()[level], page)
      ensures PartsFilled(T()[level], page, PTRS_PER_TABLE, paddrStart, paddrinc, refProt)
    {
      hide T;
      var i, paddr := 0, paddrStart;
      ghost var t0 := T();
      while i < PTRS_PER_TABLE
        invariant i <= PTRS_PER_TABLE && paddr == paddrStart + i * paddrinc
        invariant T() == t0[level := T()[level]]
        invariant SameButTable(t0[level], T()[level], page)
        invariant PartsFilled(T()[level], page, i, paddrStart, paddrinc, refProt)
      {
        SetPgentry(level, PTRS_PER_TABLE * page + i, Entry(paddr, refProt));
        paddr := paddr + paddrinc;
        i := i + 1;
      }
    }

    // ---- Modify and delete ----

    /** One turn of the loop of ModifyOrDelPte. */
    method ModifyOrDelPteAt(k: nat, protSet: Prot, protClr: Prot, mrType: MrType)
      requires Separate() && k < |T()[IA32E_PT]|
      modifies pt
      ensures T() == EntryResult(c, old(T()), IA32E_PT, k, RequestOf(mrType, protSet, protClr))
    {
      if !Present(c.ops, Pgentry(IA32E_PT, k)) {
        // nothing to do: the source logs the address
      } else {
        LocalModifyOrDelPte(IA32E_PT, k, protSet, protClr, mrType);
      }
    }

    method ModifyOrDelPte(pde: Entry, vaddrStart: nat, vaddrEnd: nat, protSet: Prot, protClr: Prot, mrType: MrType)
      requires Separate()
      requires Ready(c, T(), IA32E_PT, Index(IA32E_PD, vaddrStart), vaddrStart, vaddrEnd, RequestOf(mrType, protSet, protClr))
      requires pde == TableEntry(c, IA32E_PD, Index(IA32E_PD, vaddrStart))
      modifies pt
      ensures T() == old(T())[IA32E_PT := T()[IA32E_PT]]
      ensures var p := Index(IA32E_PD, vaddrStart);
              WorkDone(c, old(T()), T(), IA32E_PT, p, vaddrStart, vaddrEnd, RequestOf(mrType, protSet, protClr))
    {
      hide T, Ok, Map, Updated, Allowed, Sized, EndsDone, WorkDone, BlockWorkDone, AtHead;
      ghost var req := RequestOf(mrType, protSet, protClr);
      ghost var t0 := T();
      ghost var p := Index(IA32E_PD, vaddrStart);
      ghost var b1 := PTRS_PER_TABLE * p + PTRS_PER_TABLE;
      var ptPage := (pde.paddr - c.ptBase) / PAGE_SIZE;
      var vaddr: nat := vaddrStart;
      var index := vaddr / PTE_SIZE % PTRS_PER_TABLE;
      SlotPage(c.ptBase, p);
      NoWork(c, t0, IA32E_PT, p, vaddr, vaddr, req);
      HeadAtStart(IA32E_PT, vaddr);
      ChildIndex(IA32E_PD, vaddr);
      SlotIndex(p, Index(IA32E_PT, vaddr));
      hide Ready;
      while index < PTRS_PER_TABLE
        invariant index <= PTRS_PER_TABLE && PTRS_PER_TABLE * ptPage + index == Index(IA32E_PT, vaddr) < b1
        invariant vaddrStart <= vaddr
        invariant Ready(c, T(), IA32E_PT, p, vaddr, vaddrEnd, req)
        invariant WorkDone(c, t0, T(), IA32E_PT, p, vaddrStart, vaddr, req) && AtHead(IA32E_PT, vaddrStart, vaddr)
        invariant T() == t0[IA32E_PT := T()[IA32E_PT]]
      {
        var k := PTRS_PER_TABLE * ptPage + index;
        ghost var t1 := T();
        PteTurn(c, t1, p, vaddr, vaddrEnd, req);
        ModifyOrDelPteAt(k, protSet, protClr, mrType);
        WorkTurn(c, t0, t1, T(), IA32E_PT, p, vaddrStart, vaddr, vaddrEnd, req);
        vaddr := vaddr + PTE_SIZE;
        if vaddr >= vaddrEnd {
          break;
        }
        index := index + 1;
      }
    }

    /** One turn of the loop of ModifyOrDelPde: the block of vaddr. */
    method ModifyOrDelPdeAt(k: nat, ghost p: nat, vaddr: nat, vaddrEnd: nat, protSet: Prot, protClr: Prot, mrType: MrType)
      requires Separate()
      requires Ready(c, T(), IA32E_PD, p, vaddr, vaddrEnd, RequestOf(mrType, protSet, protClr))
      requires k == Index(IA32E_PD, vaddr)
      modifies pd, pt
      ensures T() == old(T())[2 := T()[2]][3 := T()[3]]
      ensures BlockWorkDone(c, old(T()), T(), IA32E_PD, k, vaddr, BlockEnd(IA32E_PD, vaddr, vaddrEnd),
                            RequestOf(mrType, protSet, protClr))
    {
      ghost var req := RequestOf(mrType, protSet, protClr);
      ghost var t1 := T();
      hide T, Ok, Map, Updated, Ready, EndsDone, HandedDown, WorkDone, BlockWorkDone, SplitEntries;
      BlockInTable(c, t1, IA32E_PD, p, vaddr, vaddrEnd, req);
      var vaddrNext := vaddr / PDE_SIZE * PDE_SIZE + PDE_SIZE;
      if !Present(c.ops, Pgentry(IA32E_PD, k)) {
        AbsentTurn(c, t1, IA32E_PD, p, vaddr, vaddrEnd, req);
        return;
      }
      if Large(Pgentry(IA32E_PD, k)) {
        if vaddrNext > vaddrEnd || vaddr % PDE_SIZE != 0 {
          PartialNeedsPtPage(c, t1, p, vaddr, vaddrEnd, req);
          SplitLargePage(IA32E_PD, k, vaddr);
          SplitTurn(c, t1, T(), IA32E_PD, p, vaddr, vaddrEnd, req);
        } else {
          WholeTurn(c, t1, IA32E_PD, p, vaddr, vaddrEnd, req);
          LocalModifyOrDelPte(IA32E_PD, k, protSet, protClr, mrType);
          return;
        }
      } else {
        UpdatedNothing(c, t1, IA32E_PD, k, k + 1, vaddr, req);
        HandedAsIs(c, t1, IA32E_PD, k, vaddr, BlockEnd(IA32E_PD, vaddr, vaddrEnd), req);
      }
      var vaddrEndEachIter := if vaddrNext < vaddrEnd then vaddrNext else vaddrEnd;
      ghost var t2 := T();
      ChildReady(c, t2, IA32E_PD, p, vaddr, vaddrEnd, req);
      ModifyOrDelPte(Pgentry(IA32E_PD, k), vaddr, vaddrEndEachIter, protSet, protClr, mrType);
      DescendTurn(c, t1, t2, T(), IA32E_PD, p, vaddr, vaddrEnd, req);
    }

    method ModifyOrDelPde(pdpte: Entry, vaddrStart: nat, vaddrEnd: nat, protSet: Prot, protClr: Prot, mrType: MrType)
      requires Separate()
      requires Ready(c, T(), IA32E_PD, Index(IA32E_PDPT, vaddrStart), vaddrStart, vaddrEnd, RequestOf(mrType, protSet, protClr))
      requires pdpte == TableEntry(c, IA32E_PDPT, Index(IA32E_PDPT, vaddrStart))
      modifies pd, pt
      ensures T() == old(T())[2 := T()[2]][3 := T()[3]]
      ensures var p := Index(IA32E_PDPT, vaddrStart);
              WorkDone(c, old(T()), T(), IA32E_PD, p, vaddrStart, vaddrEnd, RequestOf(mrType, protSet, protClr))
    {
      hide T, Ok, Map, Updated, Allowed, Sized, EndsDone, WorkDone, BlockWorkDone, AtHead;
      ghost var req := RequestOf(mrType, protSet, protClr);
      ghost var t0 := T();
      ghost var p := Index(IA32E_PDPT, vaddrStart);
      ghost var b1 := PTRS_PER_TABLE * p + PTRS_PER_TABLE;
      var page := (pdpte.paddr - c.pdBase) / PAGE_SIZE;
      var vaddr: nat := vaddrStart;
      var index := vaddr / PDE_SIZE % PTRS_PER_TABLE;
      SlotPage(c.pdBase, p);
      NoWork(c, t0, IA32E_PD, p, vaddr, vaddr, req);
      HeadAtStart(IA32E_PD, vaddr);
      ChildIndex(IA32E_PDPT, vaddr);
      SlotIndex(p, Index(IA32E_PD, vaddr));
      hide Ready;
      while index < PTRS_PER_TABLE
        invariant index <= PTRS_PER_TABLE && PTRS_PER_TABLE * page + index == Index(IA32E_PD, vaddr) < b1
        invariant vaddrStart <= vaddr
        invariant Ready(c, T(), IA32E_PD, p, vaddr, vaddrEnd, req)
        invariant WorkDone(c, t0, T(), IA32E_PD, p, vaddrStart, vaddr, req) && AtHead(IA32E_PD, vaddrStart, vaddr)
        invariant T() == t0[2 := T()[2]][3 := T()[3]]
      {
        ghost var t1 := T();
        BlockBounds(c, t1, IA32E_PD, p, vaddr, vaddrEnd, req);
        var vaddrNext := vaddr / PDE_SIZE * PDE_SIZE + PDE_SIZE;
        ModifyOrDelPdeAt(PTRS_PER_TABLE * page + index, p, vaddr, vaddrEnd, protSet, protClr, mrType);
        WorkTurn(c, t0, t1, T(), IA32E_PD, p, vaddrStart, vaddr, vaddrEnd, req);
        if vaddrNext >= vaddrEnd {
          break;
        }
        vaddr := vaddrNext;
        index := index + 1;
      }
    }

    /** One turn of the loop of ModifyOrDelPdpte: the block of vaddr. */
    method ModifyOrDelPdpteAt(k: nat, ghost p: nat, vaddr: nat, vaddrEnd: nat, protSet: Prot, protClr: Prot, mrType: MrType)
      requires Separate()
      requires Ready(c, T(), IA32E_PDPT, p, vaddr, vaddrEnd, RequestOf(mrType, protSet, protClr))
      requires k == Index(IA32E_PDPT, vaddr)
      modifies pdpt, pd, pt
      ensures T() == old(T())[1 := T()[1]][2 := T()[2]][3 := T()[3]]
      ensures BlockWorkDone(c, old(T()), T(), IA32E_PDPT, k, vaddr, BlockEnd(IA32E_PDPT, vaddr, vaddrEnd),
                            RequestOf(mrType, protSet, protClr))
    {
      ghost var req := RequestOf(mrType, protSet, protClr);
      ghost var t1 := T();
      hide T, Ok, Map, Updated, Ready, EndsDone, HandedDown, WorkDone, BlockWorkDone, SplitEntries;
      BlockInTable(c, t1, IA32E_PDPT, p, vaddr, vaddrEnd, req);
      var vaddrNext := vaddr / PDPTE_SIZE * PDPTE_SIZE + PDPTE_SIZE;
      if !Present(c.ops, Pgentry(IA32E_PDPT, k)) {
        AbsentTurn(c, t1, IA32E_PDPT, p, vaddr, vaddrEnd, req);
        return;
      }
      if Large(Pgentry(IA32E_PDPT, k)) {
        if vaddrNext > vaddrEnd || vaddr % PDPTE_SIZE != 0 {
          SplitLargePage(IA32E_PDPT, k, vaddr);
          SplitTurn(c, t1, T(), IA32E_PDPT, p, vaddr, vaddrEnd, req);
        } else {
          WholeTurn(c, t1, IA32E_PDPT, p, vaddr, vaddrEnd, req);
          LocalModifyOrDelPte(IA32E_PDPT, k, protSet, protClr, mrType);
          return;
        }
      } else {
        UpdatedNothing(c, t1, IA32E_PDPT, k, k + 1, vaddr, req);
        HandedAsIs(c, t1, IA32E_PDPT, k, vaddr, BlockEnd(IA32E_PDPT, vaddr, vaddrEnd), req);
      }
      var vaddrEndEachIter := if vaddrNext < vaddrEnd then vaddrNext else vaddrEnd;
      ghost var t2 := T();
      ChildReady(c, t2, IA32E_PDPT, p, vaddr, vaddrEnd, req);
      ModifyOrDelPde(Pgentry(IA32E_PDPT, k), vaddr, vaddrEndEachIter, protSet, protClr, mrType);
      DescendTurn(c, t1, t2, T(), IA32E_PDPT, p, vaddr, vaddrEnd, req);
    }

    method ModifyOrDelPdpte(pml4e: Entry, vaddrStart: nat, vaddrEnd: nat, protSet: Prot, protClr: Prot, mrType: MrType)
      requires Separate()
      requires Ready(c, T(), IA32E_PDPT, Index(IA32E_PML4, vaddrStart), vaddrStart, vaddrEnd, RequestOf(mrType, protSet, protClr))
      requires pml4e == TableEntry(c, IA32E_PML4, Index(IA32E_PML4, vaddrStart))
      modifies pdpt, pd, pt
      ensures T() == old(T())[1 := T()[1]][2 := T()[2]][3 := T()[3]]
      ensures var p := Index(IA32E_PML4, vaddrStart);
              WorkDone(c, old(T()), T(), IA32E_PDPT, p, vaddrStart, vaddrEnd, RequestOf(mrType, protSet, protClr))
    {
      hide T, Ok, Map, Updated, Allowed, Sized, EndsDone, WorkDone, BlockWorkDone, AtHead;
      ghost var req := RequestOf(mrType, protSet, protClr);
      ghost var t0 := T();
      ghost var p := Index(IA32E_PML4, vaddrStart);
      ghost var b1 := PTRS_PER_TABLE * p + PTRS_PER_TABLE;
      var page := (pml4e.paddr - c.pdptBase) / PAGE_SIZE;
      var vaddr: nat := vaddrStart;
      var index := vaddr / PDPTE_SIZE % PTRS_PER_TABLE;
      SlotPage(c.pdptBase, p);
      NoWork(c, t0, IA32E_PDPT, p, vaddr, vaddr, req);
      HeadAtStart(IA32E_PDPT, vaddr);
      ChildIndex(IA32E_PML4, vaddr);
      SlotIndex(p, Index(IA32E_PDPT, vaddr));
      hide Ready;
      while index < PTRS_PER_TABLE
        invariant index <= PTRS_PER_TABLE && PTRS_PER_TABLE * page + index == Index(IA32E_PDPT, vaddr) < b1
        invariant vaddrStart <= vaddr
        invariant Ready(c, T(), IA32E_PDPT, p, vaddr, vaddrEnd, req)
        invariant WorkDone(c, t0, T(), IA32E_PDPT, p, vaddrStart, vaddr, req) && AtHead(IA32E_PDPT, vaddrStart, vaddr)
        invariant T() == t0[1 := T()[1]][2 := T()[2]][3 := T()[3]]
      {
        ghost var t1 := T();
        BlockBounds(c, t1, IA32E_PDPT, p, vaddr, vaddrEnd, req);
        var vaddrNext := vaddr / PDPTE_SIZE * PDPTE_SIZE + PDPTE_SIZE;
        ModifyOrDelPdpteAt(PTRS_PER_TABLE * page + index, p, vaddr, vaddrEnd, protSet, protClr, mrType);
        WorkTurn(c, t0, t1, T(), IA32E_PDPT, p, vaddrStart, vaddr, vaddrEnd, req);
        if vaddrNext >= vaddrEnd {
          break;
        }
        vaddr := vaddrNext;
        index := index + 1;
      }
    }

    /** Modify or delete the mappings of [vaddrBase, vaddrBase + size), rounded to pages. The source
        panics where a modification reaches an absent PML4 entry; a deletion goes on with the page
        the entry holds, which has to be the sanitized one. */
    method MmuModifyOrDel(vaddrBase: nat, size: nat, protSet: Prot, protClr: Prot, mrType: MrType)
      requires Separate() && WellFormed(c, T())
      requires RangeEnd(vaddrBase, size) <= ADDRESS_LIMIT
      requires Pml4Usable(c, T(), RoundPageDown(vaddrBase), RangeEnd(vaddrBase, size), RequestOf(mrType, protSet, protClr))
      requires Allowed(c, RequestOf(mrType, protSet, protClr), RoundPageDown(vaddrBase), RangeEnd(vaddrBase, size))
      requires AdmissibleOn(c, T(), RoundPageDown(vaddrBase), RangeEnd(vaddrBase, size),
                            RequestOf(mrType, protSet, protClr))
      modifies pdpt, pd, pt
      ensures WellFormed(c, T())
      ensures CarriedOut(c, old(T()), T(), RoundPageDown(vaddrBase), RangeEnd(vaddrBase, size),
                         RequestOf(mrType, protSet, protClr))
      ensures vaddrBase + size + PAGE_SIZE <= UINT64 ==>
                BytesChanged(c, old(T()), T(), vaddrBase, size, RequestOf(mrType, protSet, protClr))
      ensures AllEndsDone(c, old(T()), T(), RoundPageDown(vaddrBase), RangeEnd(vaddrBase, size),
                          RequestOf(mrType, protSet, protClr))
      ensures T()[IA32E_PML4] == old(T())[IA32E_PML4]
    {
      hide T, Ok, Map, Updated, Allowed, Ready, CarriedOut, AdmissibleOn, RangeEnd, EndsDone, AllEndsDone, WorkDone, BlockWorkDone, AtHead, BytesChanged;
      ghost var req := RequestOf(mrType, protSet, protClr);
      ghost var t0 := T();
      var vaddr: nat := vaddrBase / PAGE_SIZE * PAGE_SIZE;
      var vaddrEnd := RangeEnd(vaddrBase, size);
      ghost var v0, done := vaddr, Min(vaddr, vaddrEnd);
      NoWork(c, t0, IA32E_PML4, 0, vaddr, Min(vaddr, vaddrEnd), req);
      HeadAtStart(IA32E_PML4, vaddr);
      if vaddr < vaddrEnd {
        RootReady(c, t0, vaddr, vaddrEnd, req);
      }
      while vaddr < vaddrEnd
        invariant v0 <= vaddr
        invariant done == Min(vaddr, vaddrEnd)
        invariant vaddr < vaddrEnd ==> Ready(c, T(), IA32E_PML4, 0, vaddr, vaddrEnd, req)
        invariant vaddr < vaddrEnd ==> AtHead(IA32E_PML4, v0, vaddr)
        invariant WorkDone(c, t0, T(), IA32E_PML4, 0, v0, done, req)
        invariant T()[IA32E_PML4] == t0[IA32E_PML4]
      {
        ghost var t1 := T();
        BlockBounds(c, t1, IA32E_PML4, 0, vaddr, vaddrEnd, req);
        BlockInTable(c, t1, IA32E_PML4, 0, vaddr, vaddrEnd, req);
        var vaddrNext := vaddr / PML4E_SIZE * PML4E_SIZE + PML4E_SIZE;
        ModifyOrDelPml4eAt(vaddr / PML4E_SIZE % PTRS_PER_TABLE, vaddr, vaddrEnd, protSet, protClr, mrType);
        WorkTurn(c, t0, t1, T(), IA32E_PML4, 0, v0, vaddr, vaddrEnd, req);
        vaddr := vaddrNext;
        done := Min(vaddr, vaddrEnd);
      }
      RootDone(c, t0, T(), v0, vaddrEnd, req);
      if vaddrBase + size + PAGE_SIZE <= UINT64 {
        CarriedOutChanges(c, t0, T(), vaddrBase, size, req);
      }
    }

    /** One turn of the loop of MmuModifyOrDel: the block of vaddr. */
    method ModifyOrDelPml4eAt(k: nat, vaddr: nat, vaddrEnd: nat, protSet: Prot, protClr: Prot, mrType: MrType)
      requires Separate()
      requires Ready(c, T(), IA32E_PML4, 0, vaddr, vaddrEnd, RequestOf(mrType, protSet, protClr))
      requires k == Index(IA32E_PML4, vaddr) && k < |T()[IA32E_PML4]|
      requires Present(c.ops, T()[IA32E_PML4][k]) || (mrType == MR_DEL && T()[IA32E_PML4][k] == Sanitized(c))
      modifies pdpt, pd, pt
      ensures T()[IA32E_PML4] == old(T())[IA32E_PML4]
      ensures BlockWorkDone(c, old(T()), T(), IA32E_PML4, k, vaddr, BlockEnd(IA32E_PML4, vaddr, vaddrEnd),
                            RequestOf(mrType, protSet, protClr))
    {
      ghost var req := RequestOf(mrType, protSet, protClr);
      ghost var t1 := T();
      hide T, Ok, Map, Updated, Ready, EndsDone, HandedDown, WorkDone, BlockWorkDone;
      BlockInTable(c, t1, IA32E_PML4, 0, vaddr, vaddrEnd, req);
      var vaddrNext := vaddr / PML4E_SIZE * PML4E_SIZE + PML4E_SIZE;
      if !Present(c.ops, Pgentry(IA32E_PML4, k)) && mrType == MR_MODIFY {
        assert false; // the source panics here
      } else if !Present(c.ops, Pgentry(IA32E_PML4, k)) {
        // every entry of the sanitized page is absent, and is passed over
        AbsentTurn(c, t1, IA32E_PML4, 0, vaddr, vaddrEnd, req);
      } else {
        var vaddrEndEachIter := if vaddrNext < vaddrEnd then vaddrNext else vaddrEnd;
        ChildReady(c, t1, IA32E_PML4, 0, vaddr, vaddrEnd, req);
        ModifyOrDelPdpte(Pgentry(IA32E_PML4, k), vaddr, vaddrEndEachIter, protSet, protClr, mrType);
        UpdatedNothing(c, t1, IA32E_PML4, k, k + 1, vaddr, req);
        HandedAsIs(c, t1, IA32E_PML4, k, vaddr, BlockEnd(IA32E_PML4, vaddr, vaddrEnd), req);
        DescendTurn(c, t1, t1, T(), IA32E_PML4, 0, vaddr, vaddrEnd, req);
      }
    }

    // ---- Add ----

    /** The arguments of a level carry out this part of an establishing request. */
    ghost predicate Establishes(req: Request, vaddr: nat, paddr: nat, prot: Prot) {
      && req.Establish? && req.vbase <= vaddr && paddr == PaddrOf(req, vaddr)
      && (prot == req.prot || prot == TweakExeRight(c.ops, req.prot))
    }

    /** What add_pde, add_pdpte and mmu_add do about an absent entry: an empty table takes its place. */
    method NewTable(level: Level, k: nat, ghost p: nat, vaddr: nat, ghost vaddrEnd: nat, ghost req: Request)
      requires Separate() && (level < IA32E_PD || (level == IA32E_PD && c.ops.hasPtPage))
      requires Ready(c, T(), level, p, vaddr, vaddrEnd, req) && req.Establish?
      requires k == Index(level, vaddr) && k < |T()[level]| && !Present(c.ops, T()[level][k])
      requires !PageFits(c, req, level, vaddr, vaddr, BlockEnd(level, vaddr, vaddrEnd))
      modifies Table(level), Table(level + 1)
      ensures T() == old(T())[level := T()[level]][level + 1 := T()[level + 1]]
      ensures T()[level] == old(T())[level][k := TableEntry(c, level, k)]
      ensures Updated(c, old(T()), T(), level, k, k + 1, vaddr, vaddr, req)
      ensures Ready(c, T(), level, p, vaddr, vaddrEnd, req)
      ensures ReferencesTable(c, level, T()[level][k])
      ensures HandedDown(c, old(T()), T(), level, k, vaddr, BlockEnd(level, vaddr, vaddrEnd), req)
    {
      hide T, Ok, Map, Updated, Ready, PageFits, HandedDown;
      ghost var t1 := T();
      var page;
      SlotRoom(c, t1, level, p, vaddr, vaddrEnd, req);
      if level == IA32E_PML4 {
        page := GetPdptPage(vaddr);
      } else if level == IA32E_PDPT {
        page := GetPdPage(vaddr);
      } else {
        page := GetPtPage(vaddr);
      }
      ConstructPgentry(level, k, page);
      InstalledTwice(c, t1, T(), level, k);
      ConstructDone(c, t1, T(), level, p, vaddr, vaddrEnd, req);
      EmptyTurn(c, t1, T(), level, p, vaddr, vaddrEnd, req);
    }

    method AddPte(pde: Entry, paddrStart: nat, vaddrStart: nat, vaddrEnd: nat, prot: Prot, ghost req: Request)
      requires Separate()
      requires Ready(c, T(), IA32E_PT, Index(IA32E_PD, vaddrStart), vaddrStart, vaddrEnd, req)
      requires pde == TableEntry(c, IA32E_PD, Index(IA32E_PD, vaddrStart))
      requires Establishes(req, vaddrStart, paddrStart, prot)
      modifies pt
      ensures T() == old(T())[3 := T()[3]]
      ensures var p := Index(IA32E_PD, vaddrStart); AddDone(c, old(T()), T(), IA32E_PT, p, vaddrStart, vaddrEnd, req, prot)
    {
      hide T, Ok, Map, Updated, Allowed, Sized, AddDone, AtHead, Effective;
      ghost var t0 := T();
      ghost var p := Index(IA32E_PD, vaddrStart);
      ghost var b1 := PTRS_PER_TABLE * p + PTRS_PER_TABLE;
      var ptPage := (pde.paddr - c.ptBase) / PAGE_SIZE;
      var vaddr: nat := vaddrStart;
      var paddr: nat := paddrStart;
      var index := vaddr / PTE_SIZE % PTRS_PER_TABLE;
      SlotPage(c.ptBase, p);
      NothingAdded(c, t0, IA32E_PT, p, vaddr, vaddr, req, prot);
      ChildIndex(IA32E_PD, vaddr);
      SlotIndex(p, Index(IA32E_PT, vaddr));
      hide Ready;
      while index < PTRS_PER_TABLE
        invariant index <= PTRS_PER_TABLE && PTRS_PER_TABLE * ptPage + index == Index(IA32E_PT, vaddr) < b1
        invariant vaddrStart <= vaddr && paddr == PaddrOf(req, vaddr)
        invariant Ready(c, T(), IA32E_PT, p, vaddr, vaddrEnd, req)
        invariant AddDone(c, t0, T(), IA32E_PT, p, vaddrStart, vaddr, req, prot) && AtHead(IA32E_PT, vaddrStart, vaddr)
        invariant T() == t0[3 := T()[3]]
      {
        var k := PTRS_PER_TABLE * ptPage + index;
        AddPteDone(c, t0, T(), p, vaddrStart, vaddr, vaddrEnd, req, Entry(paddr, prot));
        if Present(c.ops, Pgentry(IA32E_PT, k)) {
          // the source reports the address and skips the entry
        } else {
          SetPgentry(IA32E_PT, k, Entry(paddr, prot));
          paddr := paddr + PTE_SIZE;
          vaddr := vaddr + PTE_SIZE;
          if vaddr >= vaddrEnd {
            break;
          }
        }
        index := index + 1;
      }
    }

    /** One turn of the loop of AddPde: the block of vaddr. The properties stay tweaked for the
        turns that follow. */
    method AddPdeAt(k: nat, ghost p: nat, paddr: nat, vaddr: nat, vaddrEnd: nat, prot: Prot, ghost req: Request)
      returns (effectiveProt: Prot)
      requires Separate()
      requires Ready(c, T(), IA32E_PD, p, vaddr, vaddrEnd, req)
      requires k == Index(IA32E_PD, vaddr) && Establishes(req, vaddr, paddr, prot)
      modifies pd, pt
      ensures T() == old(T())[2 := T()[2]][3 := T()[3]]
      ensures BlockAddDone(c, old(T()), T(), IA32E_PD, k, vaddr, BlockEnd(IA32E_PD, vaddr, vaddrEnd), req, prot)
      ensures effectiveProt == if IsMade(c, T(), IA32E_PD, vaddr) then TweakExeRight(c.ops, prot) else prot
    {
      ghost var t1 := T();
      hide T, Ok, Map, Updated, Ready, HandedDown, AddDone, BlockAddDone, IsMade, PageFits;
      BlockInTable(c, t1, IA32E_PD, p, vaddr, vaddrEnd, req);
      NothingMapped(c, t1, IA32E_PD, p, vaddr, vaddrEnd, req);
      effectiveProt := prot;
      var vaddrNext := vaddr / PDE_SIZE * PDE_SIZE + PDE_SIZE;
      if Large(Pgentry(IA32E_PD, k)) {
        // the source reports the address and goes on
      } else {
        if !Present(c.ops, Pgentry(IA32E_PD, k)) {
          if c.ops.largePageEnabled && paddr % PDE_SIZE == 0 && vaddr % PDE_SIZE == 0 && vaddrNext <= vaddrEnd {
            effectiveProt := TweakExeRight(c.ops, effectiveProt);
            LargeTurn(c, t1, IA32E_PD, p, vaddr, vaddrEnd, req, prot, paddr);
            SetPgentry(IA32E_PD, k, Entry(paddr, effectiveProt + PAGE_PS));
            return;
          } else {
            SmallNeedsPtPage(c, t1, p, vaddr, vaddrEnd, req);
            NotFits(c, req, IA32E_PD, vaddr, vaddrEnd);
            NewTable(IA32E_PD, k, p, vaddr, vaddrEnd, req);
          }
        } else {
          UpdatedNothing(c, t1, IA32E_PD, k, k + 1, vaddr, req);
          HandedAsIs(c, t1, IA32E_PD, k, vaddr, BlockEnd(IA32E_PD, vaddr, vaddrEnd), req);
        }
        var vaddrEndEachIter := if vaddrNext < vaddrEnd then vaddrNext else vaddrEnd;
        ghost var t2 := T();
        ChildReady(c, t2, IA32E_PD, p, vaddr, vaddrEnd, req);
        AddPte(Pgentry(IA32E_PD, k), paddr, vaddr, vaddrEndEachIter, effectiveProt, req);
        AddDescend(c, t1, t2, T(), IA32E_PD, p, vaddr, vaddrEnd, req, prot);
      }
    }

    method AddPde(pdpte: Entry, paddrStart: nat, vaddrStart: nat, vaddrEnd: nat, prot: Prot, ghost req: Request)
      requires Separate()
      requires Ready(c, T(), IA32E_PD, Index(IA32E_PDPT, vaddrStart), vaddrStart, vaddrEnd, req)
      requires pdpte == TableEntry(c, IA32E_PDPT, Index(IA32E_PDPT, vaddrStart))
      requires Establishes(req, vaddrStart, paddrStart, prot)
      modifies pd, pt
      ensures T() == old(T())[2 := T()[2]][3 := T()[3]]
      ensures var p := Index(IA32E_PDPT, vaddrStart); AddDone(c, old(T()), T(), IA32E_PD, p, vaddrStart, vaddrEnd, req, prot)
    {
      hide T, Ok, Map, Updated, Allowed, Sized, AddDone, BlockAddDone, AtHead, Effective, IsMade;
      ghost var t0 := T();
      ghost var p := Index(IA32E_PDPT, vaddrStart);
      ghost var b1 := PTRS_PER_TABLE * p + PTRS_PER_TABLE;
      var page := (pdpte.paddr - c.pdBase) / PAGE_SIZE;
      var vaddr: nat := vaddrStart;
      var paddr: nat := paddrStart;
      var index := vaddr / PDE_SIZE % PTRS_PER_TABLE;
      var effectiveProt := prot;
      SlotPage(c.pdBase, p);
      NothingAdded(c, t0, IA32E_PD, p, vaddr, vaddr, req, prot);
      assert Start(IA32E_PD, PTRS_PER_TABLE * p) <= vaddrStart;
      ChildIndex(IA32E_PDPT, vaddr);
      SlotIndex(p, Index(IA32E_PD, vaddr));
      hide Ready;
      while index < PTRS_PER_TABLE
        invariant index <= PTRS_PER_TABLE && PTRS_PER_TABLE * page + index == Index(IA32E_PD, vaddr) < b1
        invariant vaddrStart <= vaddr && Establishes(req, vaddr, paddr, effectiveProt)
        invariant Ready(c, T(), IA32E_PD, p, vaddr, vaddrEnd, req)
        invariant AddDone(c, t0, T(), IA32E_PD, p, vaddrStart, vaddr, req, prot) && AtHead(IA32E_PD, vaddrStart, vaddr)
        invariant Effective(c, T(), IA32E_PD, vaddrStart, vaddr, prot, effectiveProt)
        invariant T() == t0[2 := T()[2]][3 := T()[3]]
      {
        ghost var t1 := T();
        BlockBounds(c, t1, IA32E_PD, p, vaddr, vaddrEnd, req);
        var vaddrNext := vaddr / PDE_SIZE * PDE_SIZE + PDE_SIZE;
        ghost var before := effectiveProt;
        effectiveProt := AddPdeAt(PTRS_PER_TABLE * page + index, p, paddr, vaddr, vaddrEnd, effectiveProt, req);
        AddTurn(c, t0, t1, T(), IA32E_PD, p, vaddrStart, vaddr, vaddrEnd, req, prot, before, effectiveProt);
        if vaddrNext >= vaddrEnd {
          break;
        }
        paddr := paddr + (vaddrNext - vaddr);
        vaddr := vaddrNext;
        index := index + 1;
      }
    }

    /** One turn of the loop of AddPdpte: the block of vaddr. The properties stay tweaked for the
        turns that follow. */
    method AddPdpteAt(k: nat, ghost p: nat, paddr: nat, vaddr: nat, vaddrEnd: nat, prot: Prot, ghost req: Request)
      returns (effectiveProt: Prot)
      requires Separate()
      requires Ready(c, T(), IA32E_PDPT, p, vaddr, vaddrEnd, req)
      requires k == Index(IA32E_PDPT, vaddr) && Establishes(req, vaddr, paddr, prot)
      modifies pdpt, pd, pt
      ensures T() == old(T())[1 := T()[1]][2 := T()[2]][3 := T()[3]]
      ensures BlockAddDone(c, old(T()), T(), IA32E_PDPT, k, vaddr, BlockEnd(IA32E_PDPT, vaddr, vaddrEnd), req, prot)
      ensures effectiveProt == if IsMade(c, T(), IA32E_PDPT, vaddr) then TweakExeRight(c.ops, prot) else prot
    {
      ghost var t1 := T();
      hide T, Ok, Map, Updated, Ready, HandedDown, AddDone, BlockAddDone, IsMade, PageFits;
      BlockInTable(c, t1, IA32E_PDPT, p, vaddr, vaddrEnd, req);
      NothingMapped(c, t1, IA32E_PDPT, p, vaddr, vaddrEnd, req);
      effectiveProt := prot;
      var vaddrNext := vaddr / PDPTE_SIZE * PDPTE_SIZE + PDPTE_SIZE;
      if Large(Pgentry(IA32E_PDPT, k)) {
        // the source reports the address and goes on
      } else {
        if !Present(c.ops, Pgentry(IA32E_PDPT, k)) {
          if c.ops.largePageEnabled && paddr % PDPTE_SIZE == 0 && vaddr % PDPTE_SIZE == 0 && vaddrNext <= vaddrEnd {
            effectiveProt := TweakExeRight(c.ops, effectiveProt);
            LargeTurn(c, t1, IA32E_PDPT, p, vaddr, vaddrEnd, req, prot, paddr);
            SetPgentry(IA32E_PDPT, k, Entry(paddr, effectiveProt + PAGE_PS));
            return;
          } else {
            NotFits(c, req, IA32E_PDPT, vaddr, vaddrEnd);
            NewTable(IA32E_PDPT, k, p, vaddr, vaddrEnd, req);
          }
        } else {
          UpdatedNothing(c, t1, IA32E_PDPT, k, k + 1, vaddr, req);
          HandedAsIs(c, t1, IA32E_PDPT, k, vaddr, BlockEnd(IA32E_PDPT, vaddr, vaddrEnd), req);
        }
        var vaddrEndEachIter := if vaddrNext < vaddrEnd then vaddrNext else vaddrEnd;
        ghost var t2 := T();
        ChildReady(c, t2, IA32E_PDPT, p, vaddr, vaddrEnd, req);
        AddPde(Pgentry(IA32E_PDPT, k), paddr, vaddr, vaddrEndEachIter, effectiveProt, req);
        AddDescend(c, t1, t2, T(), IA32E_PDPT, p, vaddr, vaddrEnd, req, prot);
      }
    }

    method AddPdpte(pml4e: Entry, paddrStart: nat, vaddrStart: nat, vaddrEnd: nat, prot: Prot, ghost req: Request)
      requires Separate()
      requires Ready(c, T(), IA32E_PDPT, Index(IA32E_PML4, vaddrStart), vaddrStart, vaddrEnd, req)
      requires pml4e == TableEntry(c, IA32E_PML4, Index(IA32E_PML4, vaddrStart))
      requires Establishes(req, vaddrStart, paddrStart, prot)
      modifies pdpt, pd, pt
      ensures T() == old(T())[1 := T()[1]][2 := T()[2]][3 := T()[3]]
      ensures var p := Index(IA32E_PML4, vaddrStart); AddDone(c, old(T()), T(), IA32E_PDPT, p, vaddrStart, vaddrEnd, req, prot)
    {
      hide T, Ok, Map, Updated, Allowed, Sized, AddDone, BlockAddDone, AtHead, Effective, IsMade;
      ghost var t0 := T();
      ghost var p := Index(IA32E_PML4, vaddrStart);
      ghost var b1 := PTRS_PER_TABLE * p + PTRS_PER_TABLE;
      var page := (pml4e.paddr - c.pdptBase) / PAGE_SIZE;
      var vaddr: nat := vaddrStart;
      var paddr: nat := paddrStart;
      var index := vaddr / PDPTE_SIZE % PTRS_PER_TABLE;
      var effectiveProt := prot;
      SlotPage(c.pdptBase, p);
      NothingAdded(c, t0, IA32E_PDPT, p, vaddr, vaddr, req, prot);
      assert Start(IA32E_PDPT, PTRS_PER_TABLE * p) <= vaddrStart;
      ChildIndex(IA32E_PML4, vaddr);
      SlotIndex(p, Index(IA32E_PDPT, vaddr));
      hide Ready;
      while index < PTRS_PER_TABLE
        invariant index <= PTRS_PER_TABLE && PTRS_PER_TABLE * page + index == Index(IA32E_PDPT, vaddr) < b1
        invariant vaddrStart <= vaddr && Establishes(req, vaddr, paddr, effectiveProt)
        invariant Ready(c, T(), IA32E_PDPT, p, vaddr, vaddrEnd, req)
        invariant AddDone(c, t0, T(), IA32E_PDPT, p, vaddrStart, vaddr, req, prot) && AtHead(IA32E_PDPT, vaddrStart, vaddr)
        invariant Effective(c, T(), IA32E_PDPT, vaddrStart, vaddr, prot, effectiveProt)
        invariant T() == t0[1 := T()[1]][2 := T()[2]][3 := T()[3]]
      {
        ghost var t1 := T();
        BlockBounds(c, t1, IA32E_PDPT, p, vaddr, vaddrEnd, req);
        var vaddrNext := vaddr / PDPTE_SIZE * PDPTE_SIZE + PDPTE_SIZE;
        ghost var before := effectiveProt;
        effectiveProt := AddPdpteAt(PTRS_PER_TABLE * page + index, p, paddr, vaddr, vaddrEnd, effectiveProt, req);
        AddTurn(c, t0, t1, T(), IA32E_PDPT, p, vaddrStart, vaddr, vaddrEnd, req, prot, before, effectiveProt);
        if vaddrNext >= vaddrEnd {
          break;
        }
        paddr := paddr + (vaddrNext - vaddr);
        vaddr := vaddrNext;
        index := index + 1;
      }
    }

    /** Map [vaddrBase, vaddrBase + size), rounded to pages, to the memory from paddrBase on. */
    method MmuAdd(paddrBase: nat, vaddrBase: nat, size: nat, prot: Prot)
      requires Separate() && WellFormed(c, T())
      requires Allowed(c, Establish(RoundPageDown(vaddrBase), RoundPageDown(paddrBase), prot),
                       RoundPageDown(vaddrBase), RangeEnd(vaddrBase, size))
      requires AdmissibleOn(c, T(), RoundPageDown(vaddrBase), RangeEnd(vaddrBase, size),
                            Establish(RoundPageDown(vaddrBase), RoundPageDown(paddrBase), prot))
      modifies pml4, pdpt, pd, pt
      ensures WellFormed(c, T())
      ensures CarriedOut(c, old(T()), T(), RoundPageDown(vaddrBase), RangeEnd(vaddrBase, size),
                         Establish(RoundPageDown(vaddrBase), RoundPageDown(paddrBase), prot))
      ensures vaddrBase + size + PAGE_SIZE <= UINT64 ==> BytesMapped(c, old(T()), T(), vaddrBase, size, paddrBase, prot)
      ensures AllEndsDone(c, old(T()), T(), RoundPageDown(vaddrBase), RangeEnd(vaddrBase, size),
                          Establish(RoundPageDown(vaddrBase), RoundPageDown(paddrBase), prot))
      ensures RightsDone(c, T(), IA32E_PML4, RoundPageDown(vaddrBase), RangeEnd(vaddrBase, size), prot)
      ensures Pml4Present(c, T(), RoundPageDown(vaddrBase), RangeEnd(vaddrBase, size))
      ensures forall i: nat :: i < PTRS_PER_TABLE && Present(c.ops, old(T())[IA32E_PML4][i]) ==>
                Present(c.ops, T()[IA32E_PML4][i])
    {
      hide T, Ok, Map, Updated, Allowed, Ready, CarriedOut, AdmissibleOn, RangeEnd, AllEndsDone, AddDone, BlockAddDone, AtHead, RightsDone, BytesMapped, Effective;
      ghost var t0 := T();
      var vaddr: nat := vaddrBase / PAGE_SIZE * PAGE_SIZE;
      var paddr: nat := paddrBase / PAGE_SIZE * PAGE_SIZE;
      var vaddrEnd := RangeEnd(vaddrBase, size);
      ghost var v0 := vaddr;
      ghost var req := Establish(vaddr, paddr, prot);
      ghost var done := Min(vaddr, vaddrEnd);
      NothingAdded(c, t0, IA32E_PML4, 0, vaddr, done, req, prot);
      if vaddr < vaddrEnd {
        RangeInSpace(c, req, vaddr, vaddrEnd);
        RootReady(c, t0, vaddr, vaddrEnd, req);
      }
      while vaddr < vaddrEnd
        invariant v0 <= vaddr
        invariant done == Min(vaddr, vaddrEnd)
        invariant vaddr < vaddrEnd ==>
          Ready(c, T(), IA32E_PML4, 0, vaddr, vaddrEnd, req) && Establishes(req, vaddr, paddr, prot)
          && AtHead(IA32E_PML4, v0, vaddr)
        invariant AddDone(c, t0, T(), IA32E_PML4, 0, v0, done, req, prot)
        invariant |T()[IA32E_PML4]| == PTRS_PER_TABLE
        invariant Pml4Present(c, T(), v0, vaddr)
        invariant forall i: nat :: i < PTRS_PER_TABLE && Present(c.ops, t0[IA32E_PML4][i]) ==>
                    Present(c.ops, T()[IA32E_PML4][i])
      {
        ghost var t1 := T();
        BlockBounds(c, t1, IA32E_PML4, 0, vaddr, vaddrEnd, req);
        BlockInTable(c, t1, IA32E_PML4, 0, vaddr, vaddrEnd, req);
        var vaddrNext := vaddr / PML4E_SIZE * PML4E_SIZE + PML4E_SIZE;
        var k := vaddr / PML4E_SIZE % PTRS_PER_TABLE;
        AddPml4eAt(k, paddr, vaddr, vaddrEnd, prot, req);
        RootAddTurn(c, t0, t1, T(), v0, vaddr, vaddrEnd, req, prot);
        paddr := paddr + (vaddrNext - vaddr);
        vaddr := vaddrNext;
        done := Min(vaddr, vaddrEnd);
      }
      RootAdded(c, t0, T(), v0, vaddrEnd, req, prot);
      if vaddrBase + size + PAGE_SIZE <= UINT64 {
        CarriedOutMaps(c, t0, T(), vaddrBase, size, paddrBase, prot);
      }
    }

    /** One turn of the loop of MmuAdd: the block of vaddr. */
    method AddPml4eAt(k: nat, paddr: nat, vaddr: nat, vaddrEnd: nat, prot: Prot, ghost req: Request)
      requires Separate()
      requires Ready(c, T(), IA32E_PML4, 0, vaddr, vaddrEnd, req)
      requires k == Index(IA32E_PML4, vaddr) && Establishes(req, vaddr, paddr, prot)
      modifies pml4, pdpt, pd, pt
      ensures BlockAddDone(c, old(T()), T(), IA32E_PML4, k, vaddr, BlockEnd(IA32E_PML4, vaddr, vaddrEnd), req, prot)
      ensures k < |old(T())[IA32E_PML4]| == |T()[IA32E_PML4]| && Present(c.ops, T()[IA32E_PML4][k])
      ensures forall i: nat :: i < |T()[IA32E_PML4]| && i != k ==> T()[IA32E_PML4][i] == old(T())[IA32E_PML4][i]
    {
      ghost var t1 := T();
      hide T, Ok, Map, Updated, Ready, HandedDown, AddDone, BlockAddDone, PageFits;
      BlockInTable(c, t1, IA32E_PML4, 0, vaddr, vaddrEnd, req);
      NothingMapped(c, t1, IA32E_PML4, 0, vaddr, vaddrEnd, req);
      var vaddrNext := vaddr / PML4E_SIZE * PML4E_SIZE + PML4E_SIZE;
      if !Present(c.ops, Pgentry(IA32E_PML4, k)) {
        NotFits(c, req, IA32E_PML4, vaddr, vaddrEnd);
        NewTable(IA32E_PML4, k, 0, vaddr, vaddrEnd, req);
      } else {
        UpdatedNothing(c, t1, IA32E_PML4, k, k + 1, vaddr, req);
        HandedAsIs(c, t1, IA32E_PML4, k, vaddr, BlockEnd(IA32E_PML4, vaddr, vaddrEnd), req);
      }
      var vaddrEndEachIter := if vaddrNext < vaddrEnd then vaddrNext else vaddrEnd;
      ghost var t2 := T();
      ChildReady(c, t2, IA32E_PML4, 0, vaddr, vaddrEnd, req);
      AddPdpte(Pgentry(IA32E_PML4, k), paddr, vaddr, vaddrEndEachIter, prot, req);
      AddDescend(c, t1, t2, T(), IA32E_PML4, 0, vaddr, vaddrEnd, req, prot);
    }
  }
}
