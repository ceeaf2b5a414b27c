/** The hypervisor's own address space (mmu.c): the requests init_paging makes of the engine and the
    map they add up to, and the later requests for more accessible memory. The hypervisor's tables
    have no page-table level, so every request must be 2-MByte aligned. */
module Mmu {
  import opened PageEntry
  import opened Paging
  import opened Wrappers
  import opened PagingRanges
  import opened PageTable

  const PLATFORM_SPACE: nat := 0x4_8000_0000
  const HV_RAM_SIZE: nat := 0xE80_0000
  const GUARD_PAGE_SIZE: nat := 0x20_0000
  const FOUR_G: nat := 0x1_0000_0000

  datatype E820Entry = E820Entry(baseaddr: nat, length: nat, ram: bool)

  function RoundPdeUp(a: nat): nat {
    (a + PDE_SIZE - 1) / PDE_SIZE * PDE_SIZE
  }

  function RoundPdeDown(a: nat): nat {
    a / PDE_SIZE * PDE_SIZE
  }

  lemma PdeRounding(a: nat)
    ensures RoundPdeDown(a) % PDE_SIZE == 0 && RoundPdeUp(a) % PDE_SIZE == 0
    ensures RoundPdeDown(a) <= a < RoundPdeDown(a) + PDE_SIZE
    ensures a <= RoundPdeUp(a) < a + PDE_SIZE
    ensures a % PDE_SIZE == 0 ==> RoundPdeUp(a) == a && RoundPdeDown(a) == a
  {
    PdeMultiple(a / PDE_SIZE);
    PdeMultiple((a + PDE_SIZE - 1) / PDE_SIZE);
  }

  lemma PdeIsPage(a: nat)
    requires a % PDE_SIZE == 0
    ensures a % PTE_SIZE == 0 && RoundPageDown(a) == a == RoundPageUp(a)
  {
    var i := a / PDE_SIZE;
    assert a == (512 * i) * PTE_SIZE;
    PteMultiple(512 * i);
  }

  lemma PdeSum(a: nat, b: nat)
    requires a % PDE_SIZE == 0 && b % PDE_SIZE == 0
    ensures (a + b) % PDE_SIZE == 0
  {
    var i, j := a / PDE_SIZE, b / PDE_SIZE;
    assert a + b == (i + j) * PDE_SIZE;
    PdeMultiple(i + j);
  }

  /** 2-MByte aligned ranges are not changed by rounding to pages. */
  lemma PageRounding(a: nat, size: nat)
    requires a % PDE_SIZE == 0 && size % PDE_SIZE == 0 && a + size <= PLATFORM_SPACE
    ensures RoundPageDown(a) == a && RangeEnd(a, size) == a + size
    ensures a % PTE_SIZE == 0 && (a + size) % PTE_SIZE == 0 && (a + size) % PDE_SIZE == 0
  {
    PdeIsPage(a);
    PdeSum(a, size);
    PdeIsPage(a + size);
    hide RoundPageDown, RoundPageUp;
    RangeEndIs(a, size);
    hide RangeEnd, Wrapped;
  }

  ghost predicate IsPpt(tables: PageTables) {
    tables.Separate() && tables.c.ops == PPT_MEM_OPS && tables.c.space == PLATFORM_SPACE && !tables.c.noExecLarge
  }

  /** Every mapping is present whatever the requests below clear. */
  ghost predicate AllPresent(c: Config, t: Tables) {
    forall a :: 0 <= a < ADDRESS_LIMIT && Translate(c, t, a).Some? ==> 0 in Translate(c, t, a).value.prot
  }

  lemma ClearingAdmissible(c: Config, t: Tables, v0: nat, v1: nat, clr: Prot)
    requires c.ops == PPT_MEM_OPS && AllPresent(c, t) && 0 !in clr && v1 <= ADDRESS_LIMIT
    ensures AdmissibleOn(c, t, v0, v1, Modify({}, clr))
  {
    forall a | v0 <= a < v1
      ensures Admissible(c, Modify({}, clr), Translate(c, t, a))
    {
      var m := Translate(c, t, a);
      if m.Some? {
        assert 0 in Visible(c.ops, Modified(m.value.prot, {}, clr)) * c.ops.presentMask;
      }
    }
  }

  lemma StaysPresent(c: Config, t: Tables, t': Tables, v0: nat, v1: nat, clr: Prot)
    requires AllPresent(c, t) && 0 !in clr && CarriedOut(c, t, t', v0, v1, Modify({}, clr))
    ensures AllPresent(c, t')
  {
  }

  /** Clear property bits of a 2-MByte aligned range of the hypervisor's map. */
  method ClearBits(tables: PageTables, base: nat, size: nat, clr: Prot)
    requires IsPpt(tables) && WellFormed(tables.c, tables.T()) && AllPresent(tables.c, tables.T())
    requires base % PDE_SIZE == 0 && size % PDE_SIZE == 0 && base + size <= PLATFORM_SPACE
    requires Pml4Present(tables.c, tables.T(), 0, PLATFORM_SPACE)
    requires 0 !in clr && PS_BIT !in clr
    modifies tables.pdpt, tables.pd, tables.pt
    ensures WellFormed(tables.c, tables.T()) && AllPresent(tables.c, tables.T())
    ensures Pml4Present(tables.c, tables.T(), 0, PLATFORM_SPACE)
    ensures CarriedOut(tables.c, old(tables.T()), tables.T(), base, base + size, Modify({}, clr))
  {
    hide PageTables.T, WellFormed, AllPresent, CarriedOut, AdmissibleOn, Translate;
    ghost var t0 := tables.T();
    PageRounding(base, size);
    ClearingAdmissible(tables.c, t0, base, base + size, clr);
    tables.MmuModifyOrDel(base, size, {}, clr, MR_MODIFY);
    StaysPresent(tables.c, t0, tables.T(), base, base + size, clr);
  }

  /** Give the hypervisor access to a memory region, rounded to 2-MByte pages. */
  method HvAccessMemoryRegionUpdate(tables: PageTables, base: nat, size: nat)
    requires IsPpt(tables) && WellFormed(tables.c, tables.T()) && AllPresent(tables.c, tables.T())
    requires Pml4Present(tables.c, tables.T(), 0, PLATFORM_SPACE)
    requires RoundPdeUp(base + size) <= PLATFORM_SPACE
    modifies tables.pdpt, tables.pd, tables.pt
    ensures WellFormed(tables.c, tables.T()) && AllPresent(tables.c, tables.T())
    ensures Pml4Present(tables.c, tables.T(), 0, PLATFORM_SPACE)
    ensures CarriedOut(tables.c, old(tables.T()), tables.T(), RoundPdeDown(base), RoundPdeUp(base + size),
                       Modify({}, PAGE_USER))
  {
    var regionEnd := base + size;
    var baseAligned := RoundPdeDown(base);
    PdeRounding(base);
    PdeRounding(regionEnd);
    var sizeAligned := RoundPdeUp(regionEnd - baseAligned);
    RegionSize(base, regionEnd);
    ClearBits(tables, baseAligned, sizeAligned, PAGE_USER);
  }

  lemma RegionSize(base: nat, end: nat)
    requires base <= end
    ensures RoundPdeDown(base) <= end
    ensures RoundPdeDown(base) + RoundPdeUp(end - RoundPdeDown(base)) == RoundPdeUp(end)
    ensures RoundPdeUp(end - RoundPdeDown(base)) % PDE_SIZE == 0
  {
    PdeRounding(base);
    var k := base / PDE_SIZE;
    assert RoundPdeDown(base) == k * PDE_SIZE;
    assert (end - k * PDE_SIZE + PDE_SIZE - 1) / PDE_SIZE == (end + PDE_SIZE - 1) / PDE_SIZE - k;
    PdeRounding(end - RoundPdeDown(base));
  }

  // ---- init_paging ----

  /** What the boot code knows: the end of memory, the end of RAM below 4 GByte, where the
      hypervisor is and where its code ends. */
  datatype Layout = Layout(high: nat, low: nat, image: nat, textEnd: nat)

  function ImageSize(l: Layout): nat {
    HV_RAM_SIZE + (if l.image % PDE_SIZE != 0 then PDE_SIZE else 0)
  }

  ghost predicate LayoutOk(l: Layout) {
    && l.low < FOUR_G <= l.high <= PLATFORM_SPACE && l.high % PDE_SIZE == 0
    && RoundPdeDown(l.image) + ImageSize(l) <= l.high
    && l.image <= l.textEnd && RoundPdeUp(l.textEnd) <= l.high
  }

  predicate InImage(l: Layout, a: nat) {
    RoundPdeDown(l.image) <= a < RoundPdeDown(l.image) + ImageSize(l)
  }

  predicate InText(l: Layout, a: nat) {
    RoundPdeDown(l.image) <= a < RoundPdeUp(l.textEnd)
  }

  /** After a number of requests memory is cacheable in low RAM, above 4 GByte and in the
      hypervisor's image, closed to the hypervisor's supervisor accesses outside that image, and
      executable in its code only. */
  function HvProt(l: Layout, stage: nat, a: nat): Prot {
    PAGE_PRESENT + PAGE_RW
    + (if (stage >= 1 && a < RoundPdeUp(l.low)) || (stage >= 2 && FOUR_G <= a) || (stage >= 3 && InImage(l, a))
       then PAGE_CACHE_WB else PAGE_CACHE_UC)
    + (if stage >= 3 && InImage(l, a) then {} else PAGE_USER)
    + (if stage >= 4 && InText(l, a) then {} else PAGE_NX)
  }

  predicate InGuard(guards: seq<nat>, a: nat) {
    exists i :: 0 <= i < |guards| && guards[i] <= a < guards[i] + GUARD_PAGE_SIZE
  }

  function HvMapping(l: Layout, stage: nat, guards: seq<nat>, a: nat): Option<Mapping> {
    if a < l.high && !InGuard(guards, a) then Some(Mapping(a, HvProt(l, stage, a))) else None
  }

  /** The hypervisor's map is the identity map of a stage. */
  ghost predicate HvMapped(c: Config, t: Tables, l: Layout, stage: nat, guards: seq<nat>) {
    forall a :: 0 <= a < ADDRESS_LIMIT ==> Translate(c, t, a) == HvMapping(l, stage, guards, a)
  }

  lemma HvMappedPresent(c: Config, t: Tables, l: Layout, stage: nat, guards: seq<nat>)
    requires HvMapped(c, t, l, stage, guards)
    ensures AllPresent(c, t)
  {
  }

  lemma MapMemory(c: Config, t: Tables, t': Tables, l: Layout)
    requires c.ops == PPT_MEM_OPS
    requires forall a :: 0 <= a < ADDRESS_LIMIT ==> Translate(c, t, a) == None
    requires CarriedOut(c, t, t', 0, l.high, Establish(0, 0, HvProt(l, 0, 0)))
    ensures HvMapped(c, t', l, 0, [])
  {
    forall a | 0 <= a < ADDRESS_LIMIT
      ensures Translate(c, t', a) == HvMapping(l, 0, [], a)
    {
      assert Visible(c.ops, HvProt(l, 0, 0)) == HvProt(l, 0, 0);
      assert HvProt(l, 0, a) == HvProt(l, 0, 0);
    }
  }

  /** The range and the bits of the request that leads to a stage. */
  function StageStart(l: Layout, stage: nat): nat {
    if stage == 1 then 0 else if stage == 2 then FOUR_G else RoundPdeDown(l.image)
  }

  function StageEnd(l: Layout, stage: nat): nat {
    if stage == 1 then RoundPdeUp(l.low) else if stage == 2 then l.high
    else if stage == 3 then RoundPdeDown(l.image) + ImageSize(l) else RoundPdeUp(l.textEnd)
  }

  function StageBits(stage: nat): Prot {
    if stage <= 2 then PAGE_CACHE_MASK else if stage == 3 then PAGE_CACHE_MASK + PAGE_USER else PAGE_NX
  }

  lemma NextStage(c: Config, t: Tables, t': Tables, l: Layout, stage: nat)
    requires c.ops == PPT_MEM_OPS && 1 <= stage <= 4
    requires HvMapped(c, t, l, stage - 1, [])
    requires CarriedOut(c, t, t', StageStart(l, stage), StageEnd(l, stage), Modify({}, StageBits(stage)))
    ensures HvMapped(c, t', l, stage, [])
  {
    hide HvProt, Translate, StageStart, StageEnd, StageBits, Visible, Modified;
    forall a | 0 <= a < ADDRESS_LIMIT
      ensures Translate(c, t', a) == HvMapping(l, stage, [], a)
    {
      assert !InGuard([], a);
      if a < l.high {
        StageProt(c.ops, l, stage, a);
      }
    }
  }

  lemma StageProt(ops: MemOps, l: Layout, stage: nat, a: nat)
    requires ops == PPT_MEM_OPS && 1 <= stage <= 4
    requires a < l.high
    ensures HvProt(l, stage, a)
         == if StageStart(l, stage) <= a < StageEnd(l, stage)
            then Visible(ops, Modified(HvProt(l, stage - 1, a), {}, StageBits(stage)))
            else HvProt(l, stage - 1, a)
  {
  }

  /** The 2-MByte page of an address holds some of [lo, hi). */
  predicate MeetsPde(a: nat, lo: nat, hi: nat) {
    lo < hi && a / PDE_SIZE * PDE_SIZE < hi && lo < a / PDE_SIZE * PDE_SIZE + PDE_SIZE
  }

  /** The hypervisor's final map, bit by bit: all memory but the guard pages is mapped to itself, present and
      writable. Pages with RAM below 4 GByte, memory above and the hypervisor's image are cacheable, pages of
      the image closed to user accesses, pages with code of it executable; all others are not. */
  lemma FinalMap(c: Config, t: Tables, l: Layout, guards: seq<nat>, a: nat)
    requires HvMapped(c, t, l, 4, guards) && LayoutOk(l) && l.image < l.textEnd && a < ADDRESS_LIMIT
    ensures Translate(c, t, a).Some? <==> a < l.high && forall i :: 0 <= i < |guards| ==> !(guards[i] <= a < guards[i] + GUARD_PAGE_SIZE)
    ensures Translate(c, t, a).Some? ==>
              var m := Translate(c, t, a).value;
              var image := MeetsPde(a, l.image, l.image + HV_RAM_SIZE);
              m.paddr == a && forall bit: nat :: bit in m.prot <==>
                || bit == 0 || bit == 1
                || (bit == 2 && !image)
                || ((bit == 3 || bit == 4) && !(MeetsPde(a, 0, l.low) || FOUR_G <= a || image))
                || (bit == 63 && !MeetsPde(a, l.image, l.textEnd))
  {
    hide Translate;
    assert Translate(c, t, a) == HvMapping(l, 4, guards, a);
    ImagePages(l, a);
    LowPages(l, a);
    hide RoundPdeUp, RoundPdeDown, MeetsPde, InImage, InText;
  }

  lemma LowPages(l: Layout, a: nat)
    ensures a < RoundPdeUp(l.low) <==> MeetsPde(a, 0, l.low)
  {
  }

  lemma ImagePages(l: Layout, a: nat)
    requires l.image < l.textEnd
    ensures InImage(l, a) <==> MeetsPde(a, l.image, l.image + HV_RAM_SIZE)
    ensures InText(l, a) <==> MeetsPde(a, l.image, l.textEnd)
  {
  }

  /** Where hv_access_memory_region_update works: the 2-MByte pages that hold some of the region. */
  lemma RegionPages(base: nat, size: nat, a: nat)
    requires size > 0
    ensures RoundPdeDown(base) <= a < RoundPdeUp(base + size) <==> MeetsPde(a, base, base + size)
  {
  }

  lemma NextGuard(c: Config, t: Tables, t': Tables, l: Layout, guards: seq<nat>, g: nat)
    requires HvMapped(c, t, l, 4, guards)
    requires CarriedOut(c, t, t', g, g + GUARD_PAGE_SIZE, Delete)
    ensures HvMapped(c, t', l, 4, guards + [g])
  {
    forall a | 0 <= a < ADDRESS_LIMIT
      ensures Translate(c, t', a) == HvMapping(l, 4, guards + [g], a)
    {
      var more := guards + [g];
      assert more[|guards|] == g;
      if InGuard(guards, a) {
        var i :| 0 <= i < |guards| && guards[i] <= a < guards[i] + GUARD_PAGE_SIZE;
        assert more[i] == guards[i];
      }
      if InGuard(more, a) && !(g <= a < g + GUARD_PAGE_SIZE) {
        var i :| 0 <= i < |more| && more[i] <= a < more[i] + GUARD_PAGE_SIZE;
        assert guards[i] == more[i];
      }
    }
  }

  /** low is the end of the highest RAM region that ends below 4 GByte, or 0 when there is none. */
  ghost predicate IsLowRamEnd(entries: seq<E820Entry>, low: nat) {
    && low < FOUR_G
    && (low == 0 || exists i :: 0 <= i < |entries| && entries[i].ram && low == entries[i].baseaddr + entries[i].length)
    && forall i :: 0 <= i < |entries| && entries[i].ram && entries[i].baseaddr + entries[i].length < FOUR_G ==>
         entries[i].baseaddr + entries[i].length <= low
  }

  method LowRamEnd(entries: seq<E820Entry>) returns (low: nat)
    ensures IsLowRamEnd(entries, low)
  {
    low := 0;
    var i := 0;
    while i < |entries|
      invariant i <= |entries| && low < FOUR_G
      invariant low == 0 || exists j :: 0 <= j < i && entries[j].ram && low == entries[j].baseaddr + entries[j].length
      invariant forall j :: 0 <= j < i && entries[j].ram && entries[j].baseaddr + entries[j].length < FOUR_G ==>
                  entries[j].baseaddr + entries[j].length <= low
    {
      var entry := entries[i];
      if entry.ram {
        if entry.baseaddr < FOUR_G {
          var end := entry.baseaddr + entry.length;
          if end < FOUR_G && end > low {
            low := end;
          }
        }
      }
      i := i + 1;
    }
  }

  lemma AddIsAllowed(c: Config, t: Tables, l: Layout, prot: Prot)
    requires c.ops == PPT_MEM_OPS && c.space == PLATFORM_SPACE && LayoutOk(l) && prot == HvProt(l, 0, 0)
    requires forall a :: 0 <= a < ADDRESS_LIMIT ==> Translate(c, t, a) == None
    ensures RoundPageDown(0) == 0 && RangeEnd(0, l.high) == l.high
    ensures Allowed(c, Establish(0, 0, prot), 0, l.high)
    ensures AdmissibleOn(c, t, 0, l.high, Establish(0, 0, prot))
  {
    PageRounding(0, l.high);
    assert 0 in Visible(c.ops, prot) * c.ops.presentMask;
  }

  lemma StageRange(l: Layout, stage: nat)
    requires LayoutOk(l) && 1 <= stage <= 4
    ensures StageStart(l, stage) <= StageEnd(l, stage) <= PLATFORM_SPACE
    ensures StageStart(l, stage) % PDE_SIZE == 0
    ensures (StageEnd(l, stage) - StageStart(l, stage)) % PDE_SIZE == 0
  {
    PdeRounding(l.low);
    PdeRounding(l.image);
    PdeRounding(l.textEnd);
    PdeMultiple(FOUR_G / PDE_SIZE);
    var i, j, k := RoundPdeDown(l.image) / PDE_SIZE, RoundPdeUp(l.textEnd) / PDE_SIZE, l.high / PDE_SIZE;
    assert RoundPdeDown(l.image) == i * PDE_SIZE && RoundPdeUp(l.textEnd) == j * PDE_SIZE && l.high == k * PDE_SIZE;
    PdeMultiple(j - i);
    PdeMultiple(k - FOUR_G / PDE_SIZE);
    assert i * PDE_SIZE <= l.image <= l.textEnd <= j * PDE_SIZE;
  }

  /** The requests that set attributes once all memory is mapped. */
  method SetAttributes(tables: PageTables, ghost l: Layout, high: nat, low: nat, hvHpa: nat, textEnd: nat)
    requires IsPpt(tables) && WellFormed(tables.c, tables.T())
    requires Pml4Present(tables.c, tables.T(), 0, PLATFORM_SPACE)
    requires l == Layout(high, low, hvHpa, textEnd) && LayoutOk(l)
    requires HvMapped(tables.c, tables.T(), l, 0, [])
    modifies tables.pdpt, tables.pd, tables.pt
    ensures WellFormed(tables.c, tables.T()) && Pml4Present(tables.c, tables.T(), 0, PLATFORM_SPACE)
    ensures HvMapped(tables.c, tables.T(), l, 4, [])
  {
    ghost var c := tables.c;
    StageRange(l, 1);
    StageRange(l, 2);
    StageRange(l, 3);
    StageRange(l, 4);
    hide PageTables.T, WellFormed, Pml4Present, AllPresent, CarriedOut, Translate, HvMapped, HvProt;
    ghost var t := tables.T();
    HvMappedPresent(c, t, l, 0, []);
    ClearBits(tables, 0, RoundPdeUp(low), PAGE_CACHE_MASK);
    NextStage(c, t, tables.T(), l, 1);
    t := tables.T();
    ClearBits(tables, FOUR_G, high - FOUR_G, PAGE_CACHE_MASK);
    NextStage(c, t, tables.T(), l, 2);
    t := tables.T();
    ClearBits(tables, RoundPdeDown(hvHpa), HV_RAM_SIZE + (if hvHpa % PDE_SIZE != 0 then PDE_SIZE else 0),
              PAGE_CACHE_MASK + PAGE_USER);
    NextStage(c, t, tables.T(), l, 3);
    t := tables.T();
    ClearBits(tables, RoundPdeDown(hvHpa), RoundPdeUp(textEnd) - RoundPdeDown(hvHpa), PAGE_NX);
    NextStage(c, t, tables.T(), l, 4);
  }

  /** The requests that unmap the guard pages. */
  method UnmapGuards(tables: PageTables, ghost l: Layout, guards: seq<nat>)
    requires IsPpt(tables) && WellFormed(tables.c, tables.T())
    requires Pml4Present(tables.c, tables.T(), 0, PLATFORM_SPACE)
    requires HvMapped(tables.c, tables.T(), l, 4, [])
    requires forall i :: 0 <= i < |guards| ==> guards[i] % PDE_SIZE == 0 && guards[i] + GUARD_PAGE_SIZE <= PLATFORM_SPACE
    modifies tables.pdpt, tables.pd, tables.pt
    ensures WellFormed(tables.c, tables.T())
    ensures HvMapped(tables.c, tables.T(), l, 4, guards)
  {
    ghost var c := tables.c;
    hide PageTables.T, WellFormed, CarriedOut, AdmissibleOn, Translate, HvMapped, HvProt;
    var i := 0;
    while i < |guards|
      invariant i <= |guards|
      invariant WellFormed(c, tables.T()) && Pml4Present(c, tables.T(), 0, PLATFORM_SPACE)
      invariant HvMapped(c, tables.T(), l, 4, guards[..i])
    {
      ghost var t := tables.T();
      PageRounding(guards[i], GUARD_PAGE_SIZE);
      DeleteAdmissible(c, t, guards[i], guards[i] + GUARD_PAGE_SIZE);
      tables.MmuModifyOrDel(guards[i], GUARD_PAGE_SIZE, {}, {}, MR_DEL);
      NextGuard(c, t, tables.T(), l, guards[..i], guards[i]);
      assert guards[..i + 1] == guards[..i] + [guards[i]];
      i := i + 1;
    }
    assert guards[..|guards|] == guards;
  }

  /** Set up the hypervisor's address space on empty tables: identity-map all memory uncached, make
      RAM cacheable, open and make executable what belongs to the hypervisor, unmap the guard pages
      around the stacks. */
  method InitPaging(tables: PageTables, memTop: nat, entries: seq<E820Entry>, hvHpa: nat, textEnd: nat, guards: seq<nat>)
      returns (panicked: bool, low: nat)
    requires IsPpt(tables) && WellFormed(tables.c, tables.T())
    requires forall a :: 0 <= a < ADDRESS_LIMIT ==> Translate(tables.c, tables.T(), a) == None
    requires var high := RoundPdeUp(memTop);
             && RoundPdeDown(hvHpa) + ImageSize(Layout(high, 0, hvHpa, textEnd)) <= high
             && hvHpa <= textEnd && RoundPdeUp(textEnd) <= high
    requires forall i :: 0 <= i < |guards| ==> guards[i] % PDE_SIZE == 0 && guards[i] + GUARD_PAGE_SIZE <= RoundPdeUp(memTop)
    modifies tables.pml4, tables.pdpt, tables.pd, tables.pt
    ensures panicked <==> RoundPdeUp(memTop) > PLATFORM_SPACE || RoundPdeUp(memTop) < FOUR_G
    ensures !panicked ==> WellFormed(tables.c, tables.T()) && IsLowRamEnd(entries, low)
    ensures !panicked ==> HvMapped(tables.c, tables.T(), Layout(RoundPdeUp(memTop), low, hvHpa, textEnd), 4, guards)
  {
    low := 0;
    var high := RoundPdeUp(memTop);
    PdeRounding(memTop);
    panicked := high > PLATFORM_SPACE || high < FOUR_G;
    if panicked {
      return;
    }
    low := LowRamEnd(entries);
    ghost var l := Layout(high, low, hvHpa, textEnd);
    ghost var t := tables.T();
    var attrUc := PAGE_PRESENT + PAGE_RW + PAGE_USER + PAGE_CACHE_UC + PAGE_NX;
    assert attrUc == HvProt(l, 0, 0);
    AddIsAllowed(tables.c, t, l, attrUc);
    MapMemoryWithPml4(tables.c, l);
    hide PageTables.T, WellFormed, AllPresent, CarriedOut, AdmissibleOn, Translate, HvMapped, HvProt;
    tables.MmuAdd(0, 0, high, attrUc);
    MapMemory(tables.c, t, tables.T(), l);
    SetAttributes(tables, l, high, low, hvHpa, textEnd);
    UnmapGuards(tables, l, guards);
  }

  /** One PML4 entry covers all the hypervisor maps. */
  lemma MapMemoryWithPml4(c: Config, l: Layout)
    requires LayoutOk(l)
    ensures forall t: Tables :: Pml4Present(c, t, 0, l.high) ==> Pml4Present(c, t, 0, PLATFORM_SPACE)
  {
  }
}
