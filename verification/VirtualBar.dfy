/** The virtual BARs of passed-through PCI devices (pci_pt.c, vdev.c): a guest write to a BAR
    register moves the device's MMIO window in the guest's address space by editing its EPT.

    The devices of one VM are laid out as in the array pci_vdevs: device d has the BARs
    bar[6*d .. 6*d + 6] and the configuration space cfgdata[64*d .. 64*d + 64]. */
module VirtualBar {
  import opened PageEntry
  import opened Paging
  import opened Wrappers
  import opened PagingRanges
  import opened PageSizes
  import opened PageRights
  import opened PageTable

  const PCI_BAR_COUNT: nat := 6
  const CFG_DWORDS: nat := 64
  const PCIR_BARS: nat := 0x10
  const PCI_VBAR_BASE_LIMIT: nat := 0xC000_0000
  const PCI_VBAR_TOP_LIMIT: nat := 0xE000_0000
  const HI_UNIT: nat := 0x1_0000_0000
  const ALL_ONES: bv32 := 0xFFFF_FFFF

  datatype BarType = PCIBAR_NONE | PCIBAR_IO_SPACE | PCIBAR_MEM32 | PCIBAR_MEM64 | PCIBAR_MEM64HI

  datatype PciBar = PciBar(barType: BarType, size: nat, base: nat, baseHpa: nat, fixed: bv32, mask: bv32)

  function PciBarOffset(idx: nat): nat {
    PCIR_BARS + idx * 4
  }

  /** The dword of a device's configuration space that holds a BAR register. */
  function RegIndex(d: nat, idx: nat): nat {
    CFG_DWORDS * d + PciBarOffset(idx) / 4
  }

  function BarIndex(d: nat, idx: nat): nat {
    PCI_BAR_COUNT * d + idx
  }

  /** Register idx lies at byte offset 16 + 4 * idx of its device's 256 bytes, and different BARs have different
      registers and entries. */
  lemma RegistersApart(d: nat, idx: nat, d': nat, idx': nat)
    requires idx < PCI_BAR_COUNT && idx' < PCI_BAR_COUNT
    ensures RegIndex(d, idx) * 4 == 256 * d + 16 + 4 * idx
    ensures RegIndex(d, idx) == RegIndex(d', idx') <==> d == d' && idx == idx'
    ensures BarIndex(d, idx) == BarIndex(d', idx') <==> d == d' && idx == idx'
  {
  }

  // ---- Where a BAR may be placed ----

  /** 64-bit unsigned arithmetic: the sum may wrap. */
  predicate VbarBaseIsValid(base: nat, size: nat) {
    !(base < PCI_VBAR_BASE_LIMIT || (base + size) % UINT64 > PCI_VBAR_TOP_LIMIT)
  }

  predicate InMmioSpace(base: nat, size: nat) {
    PCI_VBAR_BASE_LIMIT <= base && base + size <= PCI_VBAR_TOP_LIMIT
  }

  /** A base the two BAR registers can express: all ones in the upper one means size probing. */
  predicate Programmable(base: nat) {
    base < UINT64 - HI_UNIT
  }

  /** The check keeps every window a guest can program inside the MMIO space exactly when the BAR is
      at most 4 GByte. A larger one can end at the very top of the 64-bit space, where the sum wraps. */
  lemma VbarCheckSound(size: nat)
    requires size <= UINT64 / 2
    ensures (forall base :: 0 <= base && Programmable(base) && VbarBaseIsValid(base, size) ==> InMmioSpace(base, size))
            <==> size <= HI_UNIT
  {
    if size <= HI_UNIT {
      forall base | 0 <= base && Programmable(base) && VbarBaseIsValid(base, size)
        ensures InMmioSpace(base, size)
      {
        assert (base + size) % UINT64 == base + size;
      }
    } else {
      var base := UINT64 - size;
      assert Programmable(base) && VbarBaseIsValid(base, size) && !InMmioSpace(base, size);
    }
  }

  /** The size of a BAR from the value a read returns after all ones were written: the lowest bit
      that sticks, which for the contiguous masks of real BARs is the complement plus one. */
  lemma BarSizeFromMask(a: bv64, size: bv64)
    requires size != 0 && size & (size - 1) == 0
    requires a == !(size - 1)
    ensures a & !(a - 1) == size
    ensures !a + 1 == size
  {
  }

  // ---- BAR registers ----

  /** The address bits of a register value. */
  function Masked(w: bv32, mask: bv32): (r: nat)
    ensures r < HI_UNIT
  {
    (w & mask) as nat
  }

  /** What a write stores in a BAR register. */
  function RegisterValue(b: PciBar, val: bv32): bv32 {
    Writable(val, b.mask, b.fixed)
  }

  function Writable(val: bv32, mask: bv32, fixed: bv32): bv32 {
    (val & mask) | fixed
  }

  /** The base address the registers of a BAR hold, before it is checked. */
  function ProgrammedBase(bars: seq<PciBar>, cfg: seq<bv32>, d: nat, idx: nat): nat
    requires BarIndex(d, idx) < |bars| && RegIndex(d, idx) < |cfg|
    requires bars[BarIndex(d, idx)].barType == PCIBAR_MEM64 ==> BarIndex(d, idx + 1) < |bars| && RegIndex(d, idx + 1) < |cfg|
  {
    var vbar := bars[BarIndex(d, idx)];
    var lo := cfg[RegIndex(d, idx)];
    if vbar.barType == PCIBAR_NONE || lo == ALL_ONES then 0
    else if vbar.barType == PCIBAR_MEM64 then
      var hi := cfg[RegIndex(d, idx + 1)];
      if hi == ALL_ONES then 0
      else Masked(lo, vbar.mask) + Masked(hi, bars[BarIndex(d, idx + 1)].mask) * HI_UNIT
    else if vbar.barType == PCIBAR_IO_SPACE then Masked(lo, vbar.mask) % 0x1_0000
    else Masked(lo, vbar.mask)
  }

  function CheckedBase(base: nat, size: nat): nat {
    if base != 0 && !VbarBaseIsValid(base, size) then 0 else base
  }

  /** The registers of a BAR express an address: the writable bits of the lower one are its lower half, those
      of the upper one its upper half. All ones in a register means that the size is being probed. */
  ghost predicate Expresses(bars: seq<PciBar>, cfg: seq<bv32>, d: nat, idx: nat, x: nat)
    requires BarIndex(d, idx) < |bars| && RegIndex(d, idx) < |cfg|
    requires bars[BarIndex(d, idx)].barType == PCIBAR_MEM64 ==> BarIndex(d, idx + 1) < |bars| && RegIndex(d, idx + 1) < |cfg|
  {
    var b, lo := bars[BarIndex(d, idx)], cfg[RegIndex(d, idx)];
    && lo != ALL_ONES
    && match b.barType
       case PCIBAR_MEM32 => x == Masked(lo, b.mask)
       case PCIBAR_MEM64 =>
         var hi := cfg[RegIndex(d, idx + 1)];
         hi != ALL_ONES && x % HI_UNIT == Masked(lo, b.mask) && x / HI_UNIT == Masked(hi, bars[BarIndex(d, idx + 1)].mask)
       case PCIBAR_IO_SPACE => x == Masked(lo, b.mask) % 0x1_0000
       case _ => false
  }

  lemma BaseExpressed(bars: seq<PciBar>, cfg: seq<bv32>, d: nat, idx: nat, x: nat)
    requires BarIndex(d, idx) < |bars| && RegIndex(d, idx) < |cfg| && bars[BarIndex(d, idx)].barType != PCIBAR_MEM64HI
    requires bars[BarIndex(d, idx)].barType == PCIBAR_MEM64 ==> BarIndex(d, idx + 1) < |bars| && RegIndex(d, idx + 1) < |cfg|
    ensures Expresses(bars, cfg, d, idx, x) ==> x == ProgrammedBase(bars, cfg, d, idx)
    ensures ProgrammedBase(bars, cfg, d, idx) == 0 || Expresses(bars, cfg, d, idx, ProgrammedBase(bars, cfg, d, idx))
  {
    hide Masked;
    var b, base := bars[BarIndex(d, idx)], ProgrammedBase(bars, cfg, d, idx);
    if b.barType == PCIBAR_MEM64 {
      var lo, hi := Masked(cfg[RegIndex(d, idx)], b.mask), Masked(cfg[RegIndex(d, idx + 1)], bars[BarIndex(d, idx + 1)].mask);
      Halves(x, lo, hi);
      Halves(base, lo, hi);
    }
  }

  lemma MaskedIs(w: bv32, mask: bv32)
    ensures Masked(w, mask) == (w & mask) as nat
  {
  }

  lemma Halves(x: nat, lo: nat, hi: nat)
    requires lo < HI_UNIT
    ensures x % HI_UNIT == lo && x / HI_UNIT == hi <==> x == lo + hi * HI_UNIT
  {
  }

  /** A base follows its registers: it is the address they express if that passes the bounds check, and 0
      otherwise. */
  ghost predicate BaseFollows(bars: seq<PciBar>, cfg: seq<bv32>, d: nat, idx: nat, base: nat)
    requires BarIndex(d, idx) < |bars| && RegIndex(d, idx) < |cfg|
    requires bars[BarIndex(d, idx)].barType == PCIBAR_MEM64 ==> BarIndex(d, idx + 1) < |bars| && RegIndex(d, idx + 1) < |cfg|
  {
    && (forall x: nat :: Expresses(bars, cfg, d, idx, x) ==>
          base == if 0xC000_0000 <= x && (x + bars[BarIndex(d, idx)].size) % UINT64 <= 0xE000_0000 then x else 0)
    && ((forall x: nat :: !Expresses(bars, cfg, d, idx, x)) ==> base == 0)
  }

  lemma CheckedFollows(bars: seq<PciBar>, cfg: seq<bv32>, d: nat, idx: nat)
    requires BarIndex(d, idx) < |bars| && RegIndex(d, idx) < |cfg| && bars[BarIndex(d, idx)].barType != PCIBAR_MEM64HI
    requires bars[BarIndex(d, idx)].barType == PCIBAR_MEM64 ==> BarIndex(d, idx + 1) < |bars| && RegIndex(d, idx + 1) < |cfg|
    ensures BaseFollows(bars, cfg, d, idx, CheckedBase(ProgrammedBase(bars, cfg, d, idx), bars[BarIndex(d, idx)].size))
  {
    hide Expresses, ProgrammedBase;
    BaseExpressed(bars, cfg, d, idx, ProgrammedBase(bars, cfg, d, idx));
    forall x: nat
      ensures Expresses(bars, cfg, d, idx, x) ==> x == ProgrammedBase(bars, cfg, d, idx)
    {
      BaseExpressed(bars, cfg, d, idx, x);
    }
  }

  /** A written register has the value's bits where they can be written, and its own elsewhere. */
  lemma WritableBits(val: bv32, mask: bv32, fixed: bv32)
    requires fixed & mask == 0
    ensures Writable(val, mask, fixed) & mask == val & mask
    ensures Writable(val, mask, fixed) & !mask == fixed
  {
  }

  lemma NeverAllOnes(val: bv32, mask: bv32, fixed: bv32)
    requires mask & 1 == 0 && fixed & 1 == 0
    ensures Writable(val, mask, fixed) != 0xFFFF_FFFF
  {
  }

  /** A BAR of 8 GByte whose registers hold 2^64 - 2^33: the base passes the check and is kept, although
      the window would lie at the top of the 64-bit space. */
  lemma VbarCheckEscape(bars: seq<PciBar>, cfg: seq<bv32>, d: nat, idx: nat)
    requires BarIndex(d, idx + 1) < |bars| && RegIndex(d, idx + 1) < |cfg|
    requires bars[BarIndex(d, idx)].barType == PCIBAR_MEM64 && bars[BarIndex(d, idx)].size == 0x2_0000_0000
    requires bars[BarIndex(d, idx)].mask == 0 && bars[BarIndex(d, idx + 1)].mask == 0xFFFF_FFFE
    requires cfg[RegIndex(d, idx)] == 0x4 && cfg[RegIndex(d, idx + 1)] == 0xFFFF_FFFE
    ensures var base := ProgrammedBase(bars, cfg, d, idx);
            && base == 0xFFFF_FFFE_0000_0000 && CheckedBase(base, 0x2_0000_0000) == base
            && !InMmioSpace(base, 0x2_0000_0000)
  {
    EscapeHalves();
    hide Masked;
  }

  lemma EscapeHalves()
    ensures Masked(0x4, 0) == 0 && Masked(0xFFFF_FFFE, 0xFFFF_FFFE) == 0xFFFF_FFFE
  {
  }

  /** The BAR whose base a write to BAR idx changes: the lower half of a 64-bit pair. */
  function UpdateIdx(bars: seq<PciBar>, d: nat, idx: nat): nat
    requires BarIndex(d, idx) < |bars|
    requires bars[BarIndex(d, idx)].barType == PCIBAR_MEM64HI ==> idx > 0
  {
    if bars[BarIndex(d, idx)].barType == PCIBAR_MEM64HI then idx - 1 else idx
  }

  /** The two halves of a 64-bit BAR are adjacent BARs of one device, windows lie in the MMIO space,
      and what they are windows on lies in physical memory. */
  ghost predicate BarsOk(bars: seq<PciBar>) {
    && |bars| % PCI_BAR_COUNT == 0
    && forall d: nat, idx: nat :: idx < PCI_BAR_COUNT && BarIndex(d, idx) < |bars| ==> BarOk(bars, d, idx)
  }

  ghost predicate BarOk(bars: seq<PciBar>, d: nat, idx: nat)
    requires idx < PCI_BAR_COUNT && BarIndex(d, idx) < |bars|
  {
    var b := bars[BarIndex(d, idx)];
    && (b.barType == PCIBAR_MEM64 ==>
          idx + 1 < PCI_BAR_COUNT && BarIndex(d, idx + 1) < |bars| && bars[BarIndex(d, idx + 1)].barType == PCIBAR_MEM64HI)
    && (b.barType == PCIBAR_MEM64HI ==> 0 < idx && bars[BarIndex(d, idx - 1)].barType == PCIBAR_MEM64)
    && (b.barType == PCIBAR_NONE || b.barType == PCIBAR_MEM64HI ==> b.base == 0)
    && (b.base != 0 ==> Programmable(b.base) && VbarBaseIsValid(b.base, b.size))
    && b.baseHpa + b.size + PAGE_SIZE <= PADDR_LIMIT
    && BitsOk(b)
  }

  /** The writable bits of a register are apart from the fixed ones; bit 0 of a memory BAR is a fixed zero, and
      the upper half of a pair has no fixed bits. */
  predicate BitsOk(b: PciBar) {
    && b.fixed & b.mask == 0
    && (b.barType == PCIBAR_MEM32 || b.barType == PCIBAR_MEM64 ==> b.mask & 1 == 0 && b.fixed & 1 == 0)
    && (b.barType == PCIBAR_MEM64HI ==> b.fixed == 0)
  }

  lemma NewBits(lo: bv32, probed: bv32)
    requires lo & 1 == 0
    ensures var fixed, mask := lo & 0xF, probed & 0xFFFF_FFF0; fixed & mask == 0 && mask & 1 == 0 && fixed & 1 == 0
  {
  }

  // ---- Windows ----

  /** The pages of a BAR's window: none when it would end past the top of the 64-bit space. */
  predicate InWindow(b: PciBar, a: nat) {
    b.base != 0 && RoundPageDown(b.base) <= a < RangeEnd(b.base, b.size)
  }

  /** Where a BAR's window takes an address. */
  function WindowMapping(b: PciBar, a: nat): Mapping
    requires InWindow(b, a)
  {
    Mapping(RoundPageDown(b.baseHpa) + (a - RoundPageDown(b.base)), EPT_RD + EPT_WR)
  }

  predicate InMmio(a: nat) {
    PCI_VBAR_BASE_LIMIT <= a < PCI_VBAR_TOP_LIMIT
  }

  ghost predicate ShownBy(bars: seq<PciBar>, a: nat, m: Mapping) {
    exists k :: 0 <= k < |bars| && InWindow(bars[k], a) && m == WindowMapping(bars[k], a)
  }

  /** Whatever the guest sees in the MMIO space is a BAR at its current window. */
  ghost predicate OnlyWindows(c: Config, t: Tables, bars: seq<PciBar>) {
    forall a :: InMmio(a) && Translate(c, t, a).Some? ==> ShownBy(bars, a, Translate(c, t, a).value)
  }

  /** Every BAR shows its whole window. */
  ghost predicate AllWindows(c: Config, t: Tables, bars: seq<PciBar>) {
    forall k, a :: 0 <= k < |bars| && InWindow(bars[k], a) ==>
      Translate(c, t, a) == Some(WindowMapping(bars[k], a))
  }

  ghost predicate WindowsApart(bars: seq<PciBar>) {
    forall k, l, a :: 0 <= k < l < |bars| && InWindow(bars[k], a) ==> !InWindow(bars[l], a)
  }

  ghost predicate WindowsFit(bars: seq<PciBar>) {
    forall k :: 0 <= k < |bars| && bars[k].base != 0 ==> WindowFits(bars[k])
  }

  /** A window the check has let through, on memory below the physical address limit. */
  predicate WindowFits(b: PciBar) {
    && b.base != 0 && Programmable(b.base) && VbarBaseIsValid(b.base, b.size)
    && b.baseHpa + b.size + PAGE_SIZE <= PADDR_LIMIT
  }

  lemma BarsOkAt(bars: seq<PciBar>, k: nat)
    requires BarsOk(bars) && k < |bars|
    ensures BarIndex(k / PCI_BAR_COUNT, k % PCI_BAR_COUNT) == k
    ensures BarOk(bars, k / PCI_BAR_COUNT, k % PCI_BAR_COUNT)
  {
  }

  lemma BarsOkWindows(bars: seq<PciBar>)
    requires BarsOk(bars)
    ensures WindowsFit(bars)
  {
    forall k | 0 <= k < |bars| && bars[k].base != 0
      ensures WindowFits(bars[k])
    {
      BarsOkAt(bars, k);
    }
  }

  lemma WindowBounds(b: PciBar)
    requires WindowFits(b)
    ensures PCI_VBAR_BASE_LIMIT <= RoundPageDown(b.base)
    ensures RangeEnd(b.base, b.size) <= PCI_VBAR_TOP_LIMIT
    ensures RoundPageDown(b.base) % PTE_SIZE == 0 && RangeEnd(b.base, b.size) % PTE_SIZE == 0
    ensures RangeEnd(b.base, b.size) - RoundPageDown(b.base) <= b.size + 2 * (PAGE_SIZE - 1)
  {
    var end := Wrapped(b.base + b.size);
    assert (b.base + b.size) % UINT64 == end;
    RangeEndIs(b.base, b.size);
    PteMultiple(b.base / PAGE_SIZE);
    PteMultiple((end + PAGE_SIZE - 1) / PAGE_SIZE);
  }

  /** The window of a BAR is what its base and size say when that lies in the MMIO space, and otherwise
      empty: then the BAR is larger than 4 GByte and its end has wrapped. */
  lemma WindowShape(b: PciBar)
    requires WindowFits(b)
    ensures InMmioSpace(b.base, b.size) ==> RangeEnd(b.base, b.size) == RoundPageUp(b.base + b.size)
    ensures !InMmioSpace(b.base, b.size) ==> b.size > HI_UNIT && forall a :: !InWindow(b, a)
  {
    var end := Wrapped(b.base + b.size);
    assert (b.base + b.size) % UINT64 == end;
    RangeEndIs(b.base, b.size);
    WindowBounds(b);
    if !InMmioSpace(b.base, b.size) {
      assert b.base + b.size >= UINT64;
    }
  }

  /** A window in the MMIO space is the pages that hold its bytes. It takes them to the pages of the device's
      memory, readable and writable, with nothing else. */
  lemma WindowBytes(b: PciBar, a: nat)
    requires b.base != 0 && InMmioSpace(b.base, b.size)
    ensures InWindow(b, a) <==> HoldsBytes(b.base, b.size, a)
    ensures InWindow(b, a) ==>
              var m := WindowMapping(b, a);
              && m.prot == {0, 1}
              && m.paddr + (b.base - b.base % PAGE_SIZE) == (b.baseHpa - b.baseHpa % PAGE_SIZE) + a
  {
    RangeHoldsBytes(b.base, b.size, a);
    RoundedBytes(b.base);
    RoundedBytes(b.baseHpa);
  }

  /** The window of BAR k has been moved: what an unmap, a register update and a map add up to. */
  ghost predicate Moved(c: Config, t: Tables, t': Tables, before: PciBar, after: PciBar) {
    forall a :: 0 <= a < ADDRESS_LIMIT ==>
      Translate(c, t', a) == if InWindow(after, a) then Some(WindowMapping(after, a))
                             else if InWindow(before, a) then None
                             else Translate(c, t, a)
  }

  lemma MoveKeepsOnlyWindows(c: Config, t: Tables, t': Tables, bars: seq<PciBar>, k: nat, after: PciBar)
    requires k < |bars| && Moved(c, t, t', bars[k], after) && OnlyWindows(c, t, bars)
    ensures OnlyWindows(c, t', bars[k := after])
  {
    var bars' := bars[k := after];
    forall a | InMmio(a) && Translate(c, t', a).Some?
      ensures ShownBy(bars', a, Translate(c, t', a).value)
    {
      if InWindow(after, a) {
        assert bars'[k] == after;
      } else {
        var l :| 0 <= l < |bars| && InWindow(bars[l], a) && Translate(c, t, a).value == WindowMapping(bars[l], a);
        assert bars'[l] == bars[l];
      }
    }
  }

  lemma MoveKeepsAllWindows(c: Config, t: Tables, t': Tables, bars: seq<PciBar>, k: nat, after: PciBar)
    requires k < |bars| && Moved(c, t, t', bars[k], after) && AllWindows(c, t, bars)
    requires WindowsApart(bars) && WindowsApart(bars[k := after])
    requires WindowsFit(bars[k := after])
    ensures AllWindows(c, t', bars[k := after])
  {
    var bars' := bars[k := after];
    forall l, a | 0 <= l < |bars'| && InWindow(bars'[l], a)
      ensures Translate(c, t', a) == Some(WindowMapping(bars'[l], a))
    {
      WindowBounds(bars'[l]);
      if l != k {
        assert bars'[l] == bars[l] && bars'[k] == after;
        assert !InWindow(after, a) && !InWindow(bars[k], a);
      }
    }
  }

  /** A checked base keeps the BARs as they must be. */
  lemma CheckedBaseOk(bars: seq<PciBar>, d: nat, idx: nat, base: nat)
    requires BarsOk(bars) && idx < PCI_BAR_COUNT && BarIndex(d, idx) < |bars|
    requires Programmable(base)
    requires var b := bars[BarIndex(d, idx)];
             b.barType == PCIBAR_NONE || b.barType == PCIBAR_MEM64HI ==> base == 0
    ensures var k := BarIndex(d, idx);
            BarsOk(bars[k := bars[k].(base := CheckedBase(base, bars[k].size))])
  {
    var k := BarIndex(d, idx);
    var bars' := bars[k := bars[k].(base := CheckedBase(base, bars[k].size))];
    assert BarOk(bars, d, idx);
    forall d': nat, idx': nat | idx' < PCI_BAR_COUNT && BarIndex(d', idx') < |bars'|
      ensures BarOk(bars', d', idx')
    {
      assert BarOk(bars, d', idx');
    }
  }

  /** What BAR registers hold is always programmable. */
  lemma ProgrammedIsProgrammable(bars: seq<PciBar>, cfg: seq<bv32>, d: nat, idx: nat)
    requires BarIndex(d, idx) < |bars| && RegIndex(d, idx) < |cfg|
    requires bars[BarIndex(d, idx)].barType == PCIBAR_MEM64 ==> BarIndex(d, idx + 1) < |bars| && RegIndex(d, idx + 1) < |cfg|
    ensures Programmable(ProgrammedBase(bars, cfg, d, idx))
  {
    hide Masked;
    if bars[BarIndex(d, idx)].barType == PCIBAR_MEM64 && cfg[RegIndex(d, idx + 1)] != ALL_ONES {
      MaskedBelow(cfg[RegIndex(d, idx + 1)], bars[BarIndex(d, idx + 1)].mask);
    }
  }

  lemma MaskedBelow(w: bv32, mask: bv32)
    requires w != ALL_ONES
    ensures Masked(w, mask) < HI_UNIT - 1
  {
    MaskedNotAllOnes(w, mask);
    NotAllOnes(w & mask);
    BelowUnit(w & mask);
  }

  lemma MaskedNotAllOnes(w: bv32, mask: bv32)
    requires w != 0xFFFF_FFFF
    ensures w & mask != 0xFFFF_FFFF
  {
  }

  lemma NotAllOnes(w: bv32)
    requires w != 0xFFFF_FFFF
    ensures w as int != 0xFFFF_FFFF
  {
  }

  lemma BelowUnit(w: bv32)
    ensures w as int < 0x1_0000_0000
  {
  }

  lemma PaddrAligned(x: nat)
    ensures RoundPageDown(x) % PTE_SIZE == 0 && RoundPageDown(x) <= x
  {
    PteMultiple(x / PAGE_SIZE);
  }

  /** Unmapping a window and mapping it again are requests the engine accepts. */
  lemma WindowAllowed(c: Config, b: PciBar)
    requires WindowFits(b)
    requires c.ops.hasPtPage && Supported(c.ops) && PCI_VBAR_TOP_LIMIT <= c.space
    ensures RangeEnd(b.base, b.size) <= PCI_VBAR_TOP_LIMIT
    ensures Allowed(c, Delete, RoundPageDown(b.base), RangeEnd(b.base, b.size))
    ensures Allowed(c, Establish(RoundPageDown(b.base), RoundPageDown(b.baseHpa), EPT_WR + EPT_RD),
                    RoundPageDown(b.base), RangeEnd(b.base, b.size))
  {
    WindowBounds(b);
    PaddrAligned(b.baseHpa);
    assert 0 in Visible(c.ops, EPT_WR + EPT_RD) * c.ops.presentMask;
    WindowLength(RangeEnd(b.base, b.size) - RoundPageDown(b.base), b.size, b.baseHpa);
  }

  /** The rights ept_add_mr gives a mapping: the memory type decides about the snoop bit. */
  function EptProt(prot: Prot): Prot {
    if prot * EPT_MT_MASK == EPT_UNCACHED then prot else prot + EPT_SNOOP_CTRL
  }

  /** Memory of a cached type is snooped, all else is as asked for. */
  lemma EptProtBits(prot: Prot, bit: nat)
    ensures bit in EptProt(prot) <==> bit in prot || (bit == 11 && (3 in prot || 4 in prot || 5 in prot))
  {
    if 3 in prot || 4 in prot || 5 in prot {
      assert 3 in prot * EPT_MT_MASK || 4 in prot * EPT_MT_MASK || 5 in prot * EPT_MT_MASK;
    } else {
      assert prot * EPT_MT_MASK == {};
    }
  }

  lemma WindowProt()
    ensures EptProt(EPT_WR + EPT_RD + EPT_UNCACHED) == EPT_WR + EPT_RD
  {
    assert (EPT_WR + EPT_RD) * EPT_MT_MASK == {};
  }

  lemma WindowLength(length: int, size: nat, hpa: nat)
    requires length <= size + 2 * (PAGE_SIZE - 1) && length % PAGE_SIZE == 0
    requires hpa + size + PAGE_SIZE <= PADDR_LIMIT
    ensures RoundPageDown(hpa) + length <= PADDR_LIMIT
  {
    PteMultiple(hpa / PAGE_SIZE);
  }

  lemma DeletedThenMapped(c: Config, t0: Tables, t1: Tables, t2: Tables, b: PciBar)
    requires b.base != 0 && RangeEnd(b.base, b.size) <= ADDRESS_LIMIT
    requires CarriedOut(c, t0, t1, RoundPageDown(b.base), RangeEnd(b.base, b.size), Delete)
    requires CarriedOut(c, t1, t2, RoundPageDown(b.base), RangeEnd(b.base, b.size),
                        Establish(RoundPageDown(b.base), RoundPageDown(b.baseHpa), EPT_WR + EPT_RD))
    ensures Remapped(c, t0, t2, b)
  {
    assert Visible(c.ops, EPT_WR + EPT_RD) == EPT_RD + EPT_WR;
  }

  lemma DeletedIsUnmapped(c: Config, t: Tables, t': Tables, b: PciBar)
    requires b.base != 0
    requires CarriedOut(c, t, t', RoundPageDown(b.base), RangeEnd(b.base, b.size), Delete)
    ensures Unmapped(c, t, t', b)
  {
  }

  /** The two requests are followed by a state that both BAR invariants survive. */
  lemma WriteKeepsWindows(c: Config, t: Tables, t': Tables, bars: seq<PciBar>, k: nat, after: PciBar)
    requires k < |bars| && Moved(c, t, t', bars[k], after) && BarsOk(bars[k := after])
    ensures OnlyWindows(c, t, bars) ==> OnlyWindows(c, t', bars[k := after])
    ensures AllWindows(c, t, bars) && WindowsApart(bars) && WindowsApart(bars[k := after]) ==>
              AllWindows(c, t', bars[k := after])
  {
    BarsOkWindows(bars[k := after]);
    if OnlyWindows(c, t, bars) {
      MoveKeepsOnlyWindows(c, t, t', bars, k, after);
    }
    if AllWindows(c, t, bars) && WindowsApart(bars) && WindowsApart(bars[k := after]) {
      MoveKeepsAllWindows(c, t, t', bars, k, after);
    }
  }

  lemma WellFormedFacts(c: Config, t: Tables)
    requires WellFormed(c, t)
    ensures Supported(c.ops) && |t[IA32E_PML4]| == PTRS_PER_TABLE
  {
  }

  lemma FirstPml4Entry(c: Config, t: Tables, v0: nat, v1: nat)
    requires |t[IA32E_PML4]| > 0 && Present(c.ops, t[IA32E_PML4][0]) && v1 <= PCI_VBAR_TOP_LIMIT
    ensures Pml4Present(c, t, v0, v1)
  {
  }

  lemma DeletedIsFree(c: Config, t: Tables, t': Tables, b: PciBar)
    requires RangeEnd(b.base, b.size) <= ADDRESS_LIMIT
    requires CarriedOut(c, t, t', RoundPageDown(b.base), RangeEnd(b.base, b.size), Delete)
    ensures AdmissibleOn(c, t', RoundPageDown(b.base), RangeEnd(b.base, b.size),
                         Establish(RoundPageDown(b.base), RoundPageDown(b.baseHpa), EPT_WR + EPT_RD))
  {
  }

  /** The window of a BAR now shows the device, all else is as before. */
  ghost predicate Remapped(c: Config, t: Tables, t': Tables, b: PciBar) {
    forall a :: 0 <= a < ADDRESS_LIMIT ==>
      Translate(c, t', a) == if InWindow(b, a) then Some(WindowMapping(b, a)) else Translate(c, t, a)
  }

  ghost predicate Unmapped(c: Config, t: Tables, t': Tables, b: PciBar) {
    forall a :: 0 <= a < ADDRESS_LIMIT ==>
      Translate(c, t', a) == if InWindow(b, a) then None else Translate(c, t, a)
  }

  lemma UnmappedThenRemapped(c: Config, t0: Tables, t1: Tables, t2: Tables, before: PciBar, after: PciBar)
    requires Unmapped(c, t0, t1, before) && Remapped(c, t1, t2, after)
    ensures Moved(c, t0, t2, before, after)
  {
  }

  // ---- Initialization ----

  function PciGetBarType(val: bv32): BarType {
    if val & 0x1 == 0x1 then PCIBAR_NONE
    else if val & 0x6 == 0x0 then PCIBAR_MEM32
    else if val & 0x6 == 0x4 then PCIBAR_MEM64
    else PCIBAR_NONE
  }

  /** Bit 0 marks an I/O BAR, bits 1 and 2 tell 32-bit from 64-bit memory. */
  lemma BarTypeIsMemory(val: bv32)
    ensures PciGetBarType(val) == PCIBAR_MEM32 <==> val & 7 == 0
    ensures PciGetBarType(val) == PCIBAR_MEM64 <==> val & 7 == 4
    ensures val & 7 == 0 || val & 7 == 4 ==> val & 1 == 0
    ensures PciGetBarType(val) == PCIBAR_NONE || PciGetBarType(val) == PCIBAR_MEM32 || PciGetBarType(val) == PCIBAR_MEM64
  {
  }

  /** The physical address in a physical BAR. */
  function PbarBase(pbar: seq<bv32>, idx: nat): nat
    requires idx < |pbar|
  {
    var lo := Masked(pbar[idx], 0xFFFF_FFF0);
    if PciGetBarType(pbar[idx]) == PCIBAR_MEM64 && idx + 1 < |pbar|
    then lo + Masked(pbar[idx + 1], ALL_ONES) * HI_UNIT else lo
  }

  /** Its lower half is the address bits of the BAR, its upper half the next register of a 64-bit one. */
  lemma PbarHalves(pbar: seq<bv32>, idx: nat)
    requires idx < |pbar|
    ensures PbarBase(pbar, idx) % HI_UNIT == Masked(pbar[idx], 0xFFFF_FFF0)
    ensures PbarBase(pbar, idx) / HI_UNIT ==
              if PciGetBarType(pbar[idx]) == PCIBAR_MEM64 && idx + 1 < |pbar| then Masked(pbar[idx + 1], 0xFFFF_FFFF) else 0
  {
    hide Masked, PciGetBarType;
    var lo := Masked(pbar[idx], 0xFFFF_FFF0);
    if idx + 1 < |pbar| {
      Halves(PbarBase(pbar, idx), lo, Masked(pbar[idx + 1], 0xFFFF_FFFF));
    }
    Halves(PbarBase(pbar, idx), lo, 0);
  }

  /** The lowest bit that sticks. */
  function LowestBit(a: bv64): nat {
    (a & !(a - 1)) as nat
  }

  function BarSize(probed: seq<bv32>, idx: nat, barType: BarType): nat
    requires idx < |probed|
  {
    var lo := (probed[idx] & 0xFFFF_FFF0) as bv64;
    if barType == PCIBAR_MEM64 && idx + 1 < |probed| then LowestBit(lo | (probed[idx + 1] as bv64 << 32)) else LowestBit(lo)
  }

  /** For a BAR whose size is a power of two, whose registers keep the bits above it, that is the size. */
  lemma BarSizeProbed(probed: seq<bv32>, idx: nat, barType: BarType, size: bv64)
    requires idx < |probed| && size != 0 && size & (size - 1) == 0
    requires if barType == PCIBAR_MEM64 && idx + 1 < |probed|
             then ((probed[idx] & 0xFFFF_FFF0) as bv64 | (probed[idx + 1] as bv64 << 32)) == !(size - 1)
             else size <= 0x8000_0000 && (probed[idx] & 0xFFFF_FFF0) as bv64 == !(size - 1) & 0xFFFF_FFFF
    ensures BarSize(probed, idx, barType) == size as nat
  {
    var lo := (probed[idx] & 0xFFFF_FFF0) as bv64;
    if barType == PCIBAR_MEM64 && idx + 1 < |probed| {
      BarSizeFromMask(lo | (probed[idx + 1] as bv64 << 32), size);
    } else {
      SmallBarSize(lo, size);
    }
  }

  lemma SmallBarSize(a: bv64, size: bv64)
    requires size != 0 && size & (size - 1) == 0 && size <= 0x8000_0000
    requires a == !(size - 1) & 0xFFFF_FFFF
    ensures a & !(a - 1) == size
  {
  }

  /** What init_vdev_pt assumes of the device: a 64-bit BAR has an upper half, and the memory behind
      a BAR lies below the physical address limit. */
  ghost predicate PbarOk(pbar: seq<bv32>, probed: seq<bv32>, idx: nat)
    requires idx < |pbar| == |probed|
  {
    var barType := PciGetBarType(pbar[idx]);
    && (barType == PCIBAR_MEM64 ==> idx + 1 < |pbar|)
    && PbarBase(pbar, idx) + RoundPageUp(BarSize(probed, idx, barType)) + PAGE_SIZE <= PADDR_LIMIT
  }

  ghost predicate Unused(bars: seq<PciBar>, d: nat, idx: nat) {
    BarIndex(d, idx) < |bars| && bars[BarIndex(d, idx)] == PciBar(PCIBAR_NONE, 0, 0, 0, 0, 0)
  }

  /** The guest sees BARs at their windows only, and all of every window unless windows overlap. */
  ghost predicate WindowsShown(c: Config, t: Tables, bars: seq<PciBar>) {
    OnlyWindows(c, t, bars) && (WindowsApart(bars) ==> AllWindows(c, t, bars))
  }

  /** What init_vdev_pt makes of a physical memory BAR, before it has a base. */
  function NewBar(pbar: seq<bv32>, probed: seq<bv32>, idx: nat): PciBar
    requires idx < |pbar| == |probed|
  {
    var barType := PciGetBarType(pbar[idx]);
    PciBar(barType, RoundPageUp(BarSize(probed, idx, barType)), 0, PbarBase(pbar, idx), pbar[idx] & 0xF, probed[idx] & 0xFFFF_FFF0)
  }

  /** Its window is as large as the device's memory, up to the end of a page. */
  lemma NewBarSize(pbar: seq<bv32>, probed: seq<bv32>, idx: nat)
    requires idx < |pbar| == |probed|
    ensures var b, size := NewBar(pbar, probed, idx), BarSize(probed, idx, PciGetBarType(pbar[idx]));
            b.size % PAGE_SIZE == 0 && size <= b.size < size + PAGE_SIZE
  {
    PageBounds(BarSize(probed, idx, PciGetBarType(pbar[idx])));
  }

  function NewBarHi(probed: seq<bv32>, idx: nat): PciBar
    requires idx < |probed|
  {
    PciBar(PCIBAR_MEM64HI, 0, 0, 0, 0, probed[idx])
  }

  /** One BAR, which takes two entries when it is a 64-bit one, has been set up. */
  ghost predicate BarAdded(bars: seq<PciBar>, bars': seq<PciBar>, d: nat, idx: nat, pbar: seq<bv32>, probed: seq<bv32>)
    requires idx < |pbar| == |probed| == PCI_BAR_COUNT && PbarOk(pbar, probed, idx)
    requires BarIndex(d, PCI_BAR_COUNT) <= |bars| == |bars'|
  {
    var k := BarIndex(d, idx);
    var b := NewBar(pbar, probed, idx).(base := bars'[k].base);
    bars' == if b.barType == PCIBAR_MEM64 then bars[k := b][BarIndex(d, idx + 1) := NewBarHi(probed, idx + 1)] else bars[k := b]
  }

  /** What has become of BAR idx: the upper half of a 64-bit one, unused, or a copy of the physical one. */
  ghost predicate BarSetUp(bars: seq<PciBar>, d: nat, idx: nat, pbar: seq<bv32>, probed: seq<bv32>)
    requires idx < |pbar| == |probed| && BarIndex(d, idx) < |bars|
  {
    var b := bars[BarIndex(d, idx)];
    if idx > 0 && bars[BarIndex(d, idx - 1)].barType == PCIBAR_MEM64 then b == NewBarHi(probed, idx)
    else if PciGetBarType(pbar[idx]) == PCIBAR_NONE || PbarBase(pbar, idx) == 0 then Unused(bars, d, idx)
    else b == NewBar(pbar, probed, idx).(base := b.base)
  }

  lemma AddedKeepsSetUp(bars: seq<PciBar>, bars': seq<PciBar>, d: nat, idx: nat, pbar: seq<bv32>, probed: seq<bv32>)
    requires idx < |pbar| == |probed| == PCI_BAR_COUNT && PbarOk(pbar, probed, idx)
    requires BarIndex(d, PCI_BAR_COUNT) <= |bars| == |bars'|
    requires BarAdded(bars, bars', d, idx, pbar, probed) && PciGetBarType(pbar[idx]) != PCIBAR_NONE && PbarBase(pbar, idx) != 0
    requires forall i: nat :: i < idx ==> BarSetUp(bars, d, i, pbar, probed)
    requires forall i: nat :: idx <= i < PCI_BAR_COUNT ==> Unused(bars, d, i)
    requires idx > 0 ==> bars[BarIndex(d, idx - 1)].barType != PCIBAR_MEM64
    ensures var next := idx + (if PciGetBarType(pbar[idx]) == PCIBAR_MEM64 then 2 else 1);
            && next <= PCI_BAR_COUNT
            && (forall i: nat :: i < next ==> BarSetUp(bars', d, i, pbar, probed))
            && (forall i: nat :: next <= i < PCI_BAR_COUNT ==> Unused(bars', d, i))
            && bars'[BarIndex(d, next - 1)].barType != PCIBAR_MEM64
  {
    hide PbarBase, PciGetBarType, BarSize;
    var next := idx + (if PciGetBarType(pbar[idx]) == PCIBAR_MEM64 then 2 else 1);
    forall i: nat | i < next
      ensures BarSetUp(bars', d, i, pbar, probed)
    {
      if i < idx {
        assert BarSetUp(bars, d, i, pbar, probed);
      }
    }
    forall i: nat | next <= i < PCI_BAR_COUNT
      ensures Unused(bars', d, i)
    {
      assert Unused(bars, d, i);
    }
  }

  /** The BARs of other devices have not changed. */
  predicate BarsKept(bars: seq<PciBar>, bars': seq<PciBar>, d: nat) {
    |bars'| == |bars| && forall k :: 0 <= k < |bars| && !(BarIndex(d, 0) <= k < BarIndex(d, PCI_BAR_COUNT)) ==> bars'[k] == bars[k]
  }

  lemma BarsSame(bars: seq<PciBar>, d: nat)
    ensures BarsKept(bars, bars, d)
  {
  }

  lemma AddedToDevice(bars0: seq<PciBar>, bars: seq<PciBar>, bars': seq<PciBar>, d: nat, idx: nat, pbar: seq<bv32>, probed: seq<bv32>)
    requires idx < |pbar| == |probed| == PCI_BAR_COUNT && PbarOk(pbar, probed, idx)
    requires BarIndex(d, PCI_BAR_COUNT) <= |bars| == |bars'| && BarsKept(bars0, bars, d)
    requires BarAdded(bars, bars', d, idx, pbar, probed)
    ensures BarsKept(bars0, bars', d)
  {
    hide PbarBase, PciGetBarType, BarSize;
  }

  lemma SkippedIsSetUp(bars: seq<PciBar>, d: nat, idx: nat, pbar: seq<bv32>, probed: seq<bv32>)
    requires idx < |pbar| == |probed| && Unused(bars, d, idx)
    requires PciGetBarType(pbar[idx]) == PCIBAR_NONE || PbarBase(pbar, idx) == 0
    requires idx > 0 ==> bars[BarIndex(d, idx - 1)].barType != PCIBAR_MEM64
    ensures BarSetUp(bars, d, idx, pbar, probed) && bars[BarIndex(d, idx)].barType == PCIBAR_NONE
  {
  }

  /** A BAR that was unused has been given a type and a size, and is a BAR as it must be. */
  lemma NewBarsOk(bars: seq<PciBar>, bars': seq<PciBar>, d: nat, idx: nat, pbar: seq<bv32>, probed: seq<bv32>)
    requires idx < |pbar| == |probed| == PCI_BAR_COUNT && PbarOk(pbar, probed, idx)
    requires BarsOk(bars) && BarIndex(d, PCI_BAR_COUNT) <= |bars| == |bars'|
    requires PciGetBarType(pbar[idx]) == PCIBAR_MEM32 || PciGetBarType(pbar[idx]) == PCIBAR_MEM64
    requires forall i: nat :: idx <= i < PCI_BAR_COUNT ==> Unused(bars, d, i)
    requires BarAdded(bars, bars', d, idx, pbar, probed) && bars'[BarIndex(d, idx)].base == 0
    ensures BarsOk(bars')
  {
    hide BarAdded;
    forall d': nat, idx': nat | idx' < PCI_BAR_COUNT && BarIndex(d', idx') < |bars'|
      ensures BarOk(bars', d', idx')
    {
      if d' == d && idx' >= idx {
        AddedBarOk(bars, bars', d, idx, idx', pbar, probed);
      } else {
        OtherBarOk(bars, bars', d, idx, d', idx', pbar, probed);
      }
    }
  }

  lemma AddedBarOk(bars: seq<PciBar>, bars': seq<PciBar>, d: nat, idx: nat, idx': nat, pbar: seq<bv32>, probed: seq<bv32>)
    requires idx <= idx' < |pbar| == |probed| == PCI_BAR_COUNT && PbarOk(pbar, probed, idx)
    requires BarIndex(d, PCI_BAR_COUNT) <= |bars| == |bars'|
    requires PciGetBarType(pbar[idx]) == PCIBAR_MEM32 || PciGetBarType(pbar[idx]) == PCIBAR_MEM64
    requires forall i: nat :: idx <= i < PCI_BAR_COUNT ==> Unused(bars, d, i)
    requires BarAdded(bars, bars', d, idx, pbar, probed) && bars'[BarIndex(d, idx)].base == 0
    ensures BarOk(bars', d, idx')
  {
    NewBarBits(pbar, probed, idx);
    hide PbarBase, PciGetBarType, BarSize, BitsOk;
    assert Unused(bars, d, idx');
    SameBits(NewBar(pbar, probed, idx), bars'[BarIndex(d, idx)]);
    NoBits();
  }

  lemma NewBarBits(pbar: seq<bv32>, probed: seq<bv32>, idx: nat)
    requires idx < |pbar| == |probed|
    requires PciGetBarType(pbar[idx]) == PCIBAR_MEM32 || PciGetBarType(pbar[idx]) == PCIBAR_MEM64
    ensures BitsOk(NewBar(pbar, probed, idx))
    ensures idx + 1 < |probed| ==> BitsOk(NewBarHi(probed, idx + 1))
  {
    BarTypeIsMemory(pbar[idx]);
    hide PbarBase, PciGetBarType, BarSize, BitsOk;
    MemoryBits(NewBar(pbar, probed, idx), pbar[idx], probed[idx]);
    if idx + 1 < |probed| {
      UpperBits(probed[idx + 1]);
    }
  }

  lemma MemoryBits(b: PciBar, lo: bv32, probed: bv32)
    requires lo & 1 == 0 && b.fixed == lo & 0xF && b.mask == probed & 0xFFFF_FFF0 && b.barType != PCIBAR_MEM64HI
    ensures BitsOk(b)
  {
    NewBits(lo, probed);
  }

  lemma UpperBits(mask: bv32)
    ensures BitsOk(PciBar(PCIBAR_MEM64HI, 0, 0, 0, 0, mask))
  {
    NothingFixed(mask);
  }

  lemma NothingFixed(mask: bv32)
    ensures 0 & mask == 0
  {
  }

  lemma NoBits()
    ensures BitsOk(PciBar(PCIBAR_NONE, 0, 0, 0, 0, 0))
  {
  }

  lemma SameBits(b: PciBar, b': PciBar)
    ensures b' == b.(base := b'.base) ==> BitsOk(b') == BitsOk(b)
  {
  }

  lemma OtherBarOk(bars: seq<PciBar>, bars': seq<PciBar>, d: nat, idx: nat, d': nat, idx': nat, pbar: seq<bv32>, probed: seq<bv32>)
    requires idx < |pbar| == |probed| == PCI_BAR_COUNT && PbarOk(pbar, probed, idx)
    requires BarIndex(d, PCI_BAR_COUNT) <= |bars| == |bars'|
    requires forall i: nat :: idx <= i < PCI_BAR_COUNT ==> Unused(bars, d, i)
    requires idx' < PCI_BAR_COUNT && BarIndex(d', idx') < |bars'| && !(d' == d && idx' >= idx) && BarOk(bars, d', idx')
    requires BarAdded(bars, bars', d, idx, pbar, probed)
    ensures BarOk(bars', d', idx')
  {
    hide PbarBase, PciGetBarType, BarSize;
    assert Unused(bars, d, idx);
    assert PciGetBarType(pbar[idx]) == PCIBAR_MEM64 ==> Unused(bars, d, idx + 1);
  }

  lemma Rebased(bars: seq<PciBar>, bars': seq<PciBar>, bars'': seq<PciBar>, d: nat, idx: nat, pbar: seq<bv32>, probed: seq<bv32>)
    requires idx < |pbar| == |probed| == PCI_BAR_COUNT && PbarOk(pbar, probed, idx)
    requires BarIndex(d, PCI_BAR_COUNT) <= |bars| == |bars'| == |bars''|
    requires BarAdded(bars, bars', d, idx, pbar, probed)
    requires var k := BarIndex(d, idx); bars'' == bars'[k := bars'[k].(base := bars''[k].base)]
    ensures BarAdded(bars, bars'', d, idx, pbar, probed)
  {
    hide PbarBase, PciGetBarType, BarSize;
  }

  /** A BAR that had no window has been mapped. */
  lemma NewWindowShown(c: Config, t: Tables, t': Tables, bars: seq<PciBar>, bars': seq<PciBar>, k: nat)
    requires k < |bars| == |bars'| && BarsOk(bars')
    requires bars[k].base == 0 && forall l :: 0 <= l < |bars| && l != k ==>
               bars'[l] == bars[l] || (bars'[l].base == 0 && bars[l].base == 0)
    requires Remapped(c, t, t', bars'[k])
    ensures WindowsShown(c, t, bars) ==> WindowsShown(c, t', bars')
  {
    if WindowsShown(c, t, bars) {
      BarsOkWindows(bars');
      forall a | InMmio(a) && Translate(c, t', a).Some?
        ensures ShownBy(bars', a, Translate(c, t', a).value)
      {
        if !InWindow(bars'[k], a) {
          var l :| 0 <= l < |bars| && InWindow(bars[l], a) && Translate(c, t, a).value == WindowMapping(bars[l], a);
          assert bars'[l] == bars[l];
        }
      }
      if WindowsApart(bars') {
        FewerWindowsApart(bars, bars', k);
        forall l, a | 0 <= l < |bars'| && InWindow(bars'[l], a)
          ensures Translate(c, t', a) == Some(WindowMapping(bars'[l], a))
        {
          WindowBounds(bars'[l]);
          if l != k {
            assert !InWindow(bars'[k], a);
          }
        }
      }
    }
  }

  lemma FewerWindowsApart(bars: seq<PciBar>, bars': seq<PciBar>, k: nat)
    requires k < |bars| == |bars'| && bars[k].base == 0 && WindowsApart(bars')
    requires forall l :: 0 <= l < |bars| && l != k ==> bars'[l] == bars[l] || (bars'[l].base == 0 && bars[l].base == 0)
    ensures WindowsApart(bars)
  {
    forall i, j, a | 0 <= i < j < |bars| && InWindow(bars[i], a)
      ensures !InWindow(bars[j], a)
    {
      assert bars'[i] == bars[i];
    }
  }

  lemma AddedIsOneWindow(bars: seq<PciBar>, bars': seq<PciBar>, d: nat, idx: nat, pbar: seq<bv32>, probed: seq<bv32>)
    requires idx < |pbar| == |probed| == PCI_BAR_COUNT && PbarOk(pbar, probed, idx)
    requires BarIndex(d, PCI_BAR_COUNT) <= |bars| == |bars'|
    requires forall i: nat :: idx <= i < PCI_BAR_COUNT ==> Unused(bars, d, i)
    requires BarAdded(bars, bars', d, idx, pbar, probed)
    ensures bars[BarIndex(d, idx)].base == 0
    ensures forall l :: 0 <= l < |bars| && l != BarIndex(d, idx) ==> bars'[l] == bars[l] || (bars'[l].base == 0 && bars[l].base == 0)
  {
    hide PbarBase, PciGetBarType, BarSize;
    assert Unused(bars, d, idx);
    assert idx + 1 < PCI_BAR_COUNT ==> Unused(bars, d, idx + 1);
  }

  /** The registers of a BAR hold the halves of a configured base, as far as they can be written, and
      its base is what they hold. */
  ghost predicate Programmed(bars: seq<PciBar>, cfg: seq<bv32>, d: nat, idx: nat, lo: bv32, hi: bv32) {
    && BarIndex(d, idx) < |bars| && RegIndex(d, idx) < |cfg|
    && var b := bars[BarIndex(d, idx)];
       && cfg[RegIndex(d, idx)] == RegisterValue(b, lo)
       && (b.barType == PCIBAR_MEM64 ==>
             && BarIndex(d, idx + 1) < |bars| && RegIndex(d, idx + 1) < |cfg|
             && cfg[RegIndex(d, idx + 1)] == RegisterValue(bars[BarIndex(d, idx + 1)], hi))
       && b.base == CheckedBase(ProgrammedBase(bars, cfg, d, idx), b.size)
  }

  /** The base a BAR has does not matter to the one its registers hold. */
  lemma RebasedIsProgrammed(bars: seq<PciBar>, bars': seq<PciBar>, cfg: seq<bv32>, d: nat, idx: nat)
    requires RebasedBar(bars, bars', cfg, d, idx)
    ensures bars'[BarIndex(d, idx)].base == CheckedBase(ProgrammedBase(bars', cfg, d, idx), bars'[BarIndex(d, idx)].size)
  {
    hide Masked, CheckedBase;
  }

  /** A register has been written, and the base follows. */
  ghost predicate RegisterWritten(bars: seq<PciBar>, bars': seq<PciBar>, cfg: seq<bv32>, cfg': seq<bv32>, d: nat, idx: nat, val: bv32) {
    && BarIndex(d, idx) < |bars| && RegIndex(d, idx) < |cfg|
    && (bars[BarIndex(d, idx)].barType == PCIBAR_MEM64HI ==> idx > 0)
    && cfg' == cfg[RegIndex(d, idx) := RegisterValue(bars[BarIndex(d, idx)], val)]
    && RebasedBar(bars, bars', cfg', d, UpdateIdx(bars, d, idx))
  }

  lemma WrittenOnce(bars: seq<PciBar>, bars': seq<PciBar>, cfg: seq<bv32>, cfg': seq<bv32>, d: nat, idx: nat, lo: bv32, hi: bv32)
    requires idx < PCI_BAR_COUNT && RegisterWritten(bars, bars', cfg, cfg', d, idx, lo) && bars[BarIndex(d, idx)].barType == PCIBAR_MEM32
    ensures Programmed(bars', cfg', d, idx, lo, hi) && RegistersKept(cfg, cfg', d, idx)
  {
    hide Masked, CheckedBase, RegisterValue;
    assert RegisterValue(bars'[BarIndex(d, idx)], lo) == RegisterValue(bars[BarIndex(d, idx)], lo) by {
      SameRegisterValue(bars[BarIndex(d, idx)], bars'[BarIndex(d, idx)], lo);
    }
    RebasedIsProgrammed(bars, bars', cfg', d, idx);
  }

  lemma WrittenTwice(bars: seq<PciBar>, bars1: seq<PciBar>, bars': seq<PciBar>, cfg: seq<bv32>, cfg1: seq<bv32>, cfg': seq<bv32>,
                     d: nat, idx: nat, lo: bv32, hi: bv32)
    requires idx + 1 < PCI_BAR_COUNT && BarIndex(d, idx + 1) < |bars|
    requires bars[BarIndex(d, idx)].barType == PCIBAR_MEM64 && bars[BarIndex(d, idx + 1)].barType == PCIBAR_MEM64HI
    requires RegisterWritten(bars, bars1, cfg, cfg1, d, idx, lo) && RegisterWritten(bars1, bars', cfg1, cfg', d, idx + 1, hi)
    ensures Programmed(bars', cfg', d, idx, lo, hi) && RegistersKept(cfg, cfg', d, idx)
  {
    hide Masked, CheckedBase, RegisterValue;
    SameRegisterValue(bars[BarIndex(d, idx)], bars'[BarIndex(d, idx)], lo);
    SameRegisterValue(bars1[BarIndex(d, idx + 1)], bars'[BarIndex(d, idx + 1)], hi);
    RebasedIsProgrammed(bars1, bars', cfg', d, idx);
  }

  lemma SameRegisterValue(b: PciBar, b': PciBar, val: bv32)
    requires b'.mask == b.mask && b'.fixed == b.fixed
    ensures RegisterValue(b', val) == RegisterValue(b, val)
  {
    hide Writable;
  }

  /** Only registers of a device from a BAR on have changed. */
  predicate RegistersKept(cfg: seq<bv32>, cfg': seq<bv32>, d: nat, idx: nat) {
    |cfg'| == |cfg| && forall r :: 0 <= r < |cfg| && !(RegIndex(d, idx) <= r < RegIndex(d, PCI_BAR_COUNT)) ==> cfg'[r] == cfg[r]
  }

  /** Setting up a BAR does not change what earlier BARs were programmed to. */
  lemma ProgrammedKept(bars: seq<PciBar>, bars': seq<PciBar>, cfg: seq<bv32>, cfg': seq<bv32>, d: nat, idx: nat, i: nat, lo: bv32, hi: bv32)
    requires |bars'| == |bars| && |cfg'| == |cfg| && i < idx && Programmed(bars, cfg, d, i, lo, hi)
    requires bars[BarIndex(d, i)].barType == PCIBAR_MEM64 ==> i + 1 < idx
    requires forall k :: 0 <= k < BarIndex(d, idx) && k < |bars| ==> bars'[k] == bars[k]
    requires forall r :: 0 <= r < RegIndex(d, idx) && r < |cfg| ==> cfg'[r] == cfg[r]
    ensures Programmed(bars', cfg', d, i, lo, hi)
  {
    hide Masked, CheckedBase, RegisterValue;
  }

  predicate IsMemoryBar(b: PciBar) {
    b.barType == PCIBAR_MEM32 || b.barType == PCIBAR_MEM64
  }

  lemma AllProgrammed(bars: seq<PciBar>, bars': seq<PciBar>, cfg: seq<bv32>, cfg': seq<bv32>, d: nat, idx: nat,
                      pbar: seq<bv32>, probed: seq<bv32>, los: seq<bv32>, his: seq<bv32>)
    requires idx < |pbar| == |probed| == |los| == |his| == PCI_BAR_COUNT && PbarOk(pbar, probed, idx)
    requires BarIndex(d, PCI_BAR_COUNT) <= |bars| == |bars'| && |cfg| == |cfg'|
    requires BarAdded(bars, bars', d, idx, pbar, probed) && Programmed(bars', cfg', d, idx, los[idx], his[idx])
    requires idx > 0 ==> bars[BarIndex(d, idx - 1)].barType != PCIBAR_MEM64
    requires forall i: nat :: i < idx && IsMemoryBar(bars[BarIndex(d, i)]) ==> Programmed(bars, cfg, d, i, los[i], his[i])
    requires RegistersKept(cfg, cfg', d, idx)
    ensures var next := idx + (if PciGetBarType(pbar[idx]) == PCIBAR_MEM64 then 2 else 1);
            forall i: nat :: i < next && IsMemoryBar(bars'[BarIndex(d, i)]) ==> Programmed(bars', cfg', d, i, los[i], his[i])
  {
    hide Programmed, PbarBase, PciGetBarType, BarSize;
    var next := idx + (if PciGetBarType(pbar[idx]) == PCIBAR_MEM64 then 2 else 1);
    forall i: nat | i < next && IsMemoryBar(bars'[BarIndex(d, i)])
      ensures Programmed(bars', cfg', d, i, los[i], his[i])
    {
      if i < idx {
        ProgrammedKept(bars, bars', cfg, cfg', d, idx, i, los[i], his[i]);
      }
    }
  }

  lemma ProgrammedZero(bars: seq<PciBar>, cfg: seq<bv32>, d: nat, idx: nat)
    requires BarIndex(d, idx) < |bars| && RegIndex(d, idx) < |cfg|
    requires bars[BarIndex(d, idx)].barType == PCIBAR_MEM64 ==> BarIndex(d, idx + 1) < |bars| && RegIndex(d, idx + 1) < |cfg|
    ensures bars[BarIndex(d, idx)].barType == PCIBAR_NONE ==> ProgrammedBase(bars, cfg, d, idx) == 0
  {
  }

  class Vpci {
    const ept: PageTables
    const bar: array<PciBar>
    const cfgdata: array<bv32>

    /** The devices of a VM before init_vdev_pt: no BARs, empty configuration spaces. */
    constructor (tables: PageTables, devices: nat)
      ensures ept == tables && fresh(bar) && fresh(cfgdata) && Apart()
      ensures bar.Length == PCI_BAR_COUNT * devices && cfgdata.Length == CFG_DWORDS * devices
      ensures forall k :: 0 <= k < bar.Length ==> bar[k] == PciBar(PCIBAR_NONE, 0, 0, 0, 0, 0)
      ensures forall k :: 0 <= k < cfgdata.Length ==> cfgdata[k] == 0
    {
      ept := tables;
      bar := new PciBar[PCI_BAR_COUNT * devices](_ => PciBar(PCIBAR_NONE, 0, 0, 0, 0, 0));
      cfgdata := new bv32[CFG_DWORDS * devices](_ => 0);
    }

    /** BARs and configuration spaces are not table memory. */
    ghost predicate Apart() {
      && {bar as object, cfgdata} !! {ept.pml4 as object, ept.pdpt, ept.pd, ept.pt}
      && bar as object != cfgdata
    }

    /** The EPT is well formed and its PML4 table covers the MMIO space; every device has its BARs and
        its configuration space; the BARs are as BarsOk says. */
    ghost predicate Valid()
      reads bar, cfgdata, ept.pml4, ept.pdpt, ept.pd, ept.pt
    {
      && Apart() && ept.Separate() && WellFormed(ept.c, ept.T())
      && ept.c.ops.hasPtPage && PCI_VBAR_TOP_LIMIT <= ept.c.space
      && Present(ept.c.ops, ept.T()[IA32E_PML4][0])
      && BarsOk(bar[..])
      && cfgdata.Length == CFG_DWORDS * (bar.Length / PCI_BAR_COUNT)
    }

    /** The two accesses to the registers of a BAR. */
    function PciVdevReadCfgU32(d: nat, idx: nat): (val: bv32)
      requires RegIndex(d, idx) < cfgdata.Length
      reads cfgdata
      ensures val == cfgdata[..][RegIndex(d, idx)]
    {
      cfgdata[RegIndex(d, idx)]
    }

    method PciVdevReadBar(d: nat, idx: nat) returns (val: bv32)
      requires RegIndex(d, idx) < cfgdata.Length
      ensures val == cfgdata[..][RegIndex(d, idx)]
    {
      val := PciVdevReadCfgU32(d, idx);
    }

    lemma InDevice(d: nat, idx: nat)
      requires BarsOk(bar[..]) && cfgdata.Length == CFG_DWORDS * (bar.Length / PCI_BAR_COUNT)
      requires idx < PCI_BAR_COUNT && BarIndex(d, idx) < bar.Length
      ensures RegIndex(d, idx) < cfgdata.Length
      ensures bar[BarIndex(d, idx)].barType == PCIBAR_MEM64 ==>
                idx + 1 < PCI_BAR_COUNT && BarIndex(d, idx + 1) < bar.Length && RegIndex(d, idx + 1) < cfgdata.Length
      ensures bar[BarIndex(d, idx)].barType == PCIBAR_MEM64HI ==> idx > 0
      ensures BarOk(bar[..], d, idx)
    {
      assert BarOk(bar[..], d, idx);
      assert d < bar.Length / PCI_BAR_COUNT;
    }

    method PciVdevUpdateBarBase(d: nat, idx: nat)
      requires BarsOk(bar[..]) && cfgdata.Length == CFG_DWORDS * (bar.Length / PCI_BAR_COUNT)
      requires idx < PCI_BAR_COUNT && BarIndex(d, idx) < bar.Length
      requires bar[BarIndex(d, idx)].barType != PCIBAR_MEM64HI
      requires RegIndex(d, idx) < cfgdata.Length
      requires bar[BarIndex(d, idx)].barType == PCIBAR_MEM64 ==> BarIndex(d, idx + 1) < bar.Length && RegIndex(d, idx + 1) < cfgdata.Length
      modifies bar
      ensures var k := BarIndex(d, idx);
              var b := old(bar[..])[k];
              bar[..] == old(bar[..])[k := b.(base := CheckedBase(ProgrammedBase(old(bar[..]), cfgdata[..], d, idx), b.size))]
      ensures BaseFollows(old(bar[..]), cfgdata[..], d, idx, bar[BarIndex(d, idx)].base)
    {
      CheckedFollows(bar[..], cfgdata[..], d, idx);
      hide Masked, BaseFollows, ProgrammedBase, CheckedBase;
      var base := PciVdevReadBase(d, idx);
      bar[BarIndex(d, idx)] := bar[BarIndex(d, idx)].(base := base);
    }

    /** The base the registers of a BAR hold, once it has passed the checks. */
    method PciVdevReadBase(d: nat, idx: nat) returns (base: nat)
      requires BarIndex(d, idx) < bar.Length && RegIndex(d, idx) < cfgdata.Length
      requires bar[BarIndex(d, idx)].barType == PCIBAR_MEM64 ==> BarIndex(d, idx + 1) < bar.Length && RegIndex(d, idx + 1) < cfgdata.Length
      ensures base == CheckedBase(ProgrammedBase(bar[..], cfgdata[..], d, idx), bar[BarIndex(d, idx)].size)
    {
      hide Masked;
      base := 0;
      var vbar := bar[BarIndex(d, idx)];
      var lo := PciVdevReadCfgU32(d, idx);
      if vbar.barType != PCIBAR_NONE && lo != ALL_ONES {
        base := Masked(lo, vbar.mask);
        if vbar.barType == PCIBAR_MEM64 {
          var vbarHi := bar[BarIndex(d, idx + 1)];
          var hi := PciVdevReadCfgU32(d, idx + 1);
          if hi != ALL_ONES {
            base := base + Masked(hi, vbarHi.mask) * HI_UNIT;
          } else {
            base := 0;
          }
        }
        if vbar.barType == PCIBAR_IO_SPACE {
          base := base % 0x1_0000;
        }
      }
      if base != 0 && !VbarBaseIsValid(base, bar[BarIndex(d, idx)].size) {
        base := 0;
      }
    }

    /** Store a value in a BAR register and move the base. */
    method PciVdevWriteBar(d: nat, idx: nat, val: bv32)
      requires BarsOk(bar[..]) && cfgdata.Length == CFG_DWORDS * (bar.Length / PCI_BAR_COUNT)
      requires idx < PCI_BAR_COUNT && BarIndex(d, idx) < bar.Length
      requires RegIndex(d, idx) < cfgdata.Length
      requires bar[BarIndex(d, idx)].barType == PCIBAR_MEM64HI ==> idx > 0
      modifies bar, cfgdata
      ensures var b := old(bar[..])[BarIndex(d, idx)];
              cfgdata[..] == old(cfgdata[..])[RegIndex(d, idx) := RegisterValue(b, val)]
      ensures RebasedBar(old(bar[..]), bar[..], cfgdata[..], d, UpdateIdx(old(bar[..]), d, idx))
    {
      hide Masked, RegisterValue, ProgrammedBase, CheckedBase;
      InDevice(d, idx);
      var vbar := bar[BarIndex(d, idx)];
      var updateIdx := idx;
      var reg := RegisterValue(vbar, val);
      cfgdata[RegIndex(d, idx)] := reg;
      if vbar.barType == PCIBAR_MEM64HI {
        updateIdx := updateIdx - 1;
      }
      InDevice(d, updateIdx);
      PciVdevUpdateBarBase(d, updateIdx);
    }

    /** Remove the mappings of a range of guest addresses. */
    method EptDelMr(gpa: nat, size: nat)
      requires Valid() && RangeEnd(gpa, size) <= ADDRESS_LIMIT
      requires Pml4Usable(ept.c, ept.T(), RoundPageDown(gpa), RangeEnd(gpa, size), Delete)
      requires Allowed(ept.c, Delete, RoundPageDown(gpa), RangeEnd(gpa, size))
      modifies ept.pdpt, ept.pd, ept.pt
      ensures Valid() && bar[..] == old(bar[..]) && cfgdata[..] == old(cfgdata[..])
      ensures CarriedOut(ept.c, old(ept.T()), ept.T(), RoundPageDown(gpa), RangeEnd(gpa, size), Delete)
      ensures gpa + size + PAGE_SIZE <= UINT64 ==> BytesChanged(ept.c, old(ept.T()), ept.T(), gpa, size, Delete)
    {
      hide PageTables.T, WellFormed, CarriedOut, Translate, Allowed, AdmissibleOn, BarsOk, RangeEnd, BytesChanged, AllEndsDone;
      DeleteAdmissible(ept.c, ept.T(), RoundPageDown(gpa), RangeEnd(gpa, size));
      ept.MmuModifyOrDel(gpa, size, {}, {}, MR_DEL);
    }

    /** Map a range of guest addresses; accesses to memory that is cached are snooped. */
    method EptAddMr(hpa: nat, gpa: nat, size: nat, protOrig: Prot)
      requires Valid()
      requires Allowed(ept.c, Establish(RoundPageDown(gpa), RoundPageDown(hpa), EptProt(protOrig)),
                       RoundPageDown(gpa), RangeEnd(gpa, size))
      requires AdmissibleOn(ept.c, ept.T(), RoundPageDown(gpa), RangeEnd(gpa, size),
                            Establish(RoundPageDown(gpa), RoundPageDown(hpa), EptProt(protOrig)))
      modifies ept.pml4, ept.pdpt, ept.pd, ept.pt
      ensures Valid() && bar[..] == old(bar[..]) && cfgdata[..] == old(cfgdata[..])
      ensures CarriedOut(ept.c, old(ept.T()), ept.T(), RoundPageDown(gpa), RangeEnd(gpa, size),
                         Establish(RoundPageDown(gpa), RoundPageDown(hpa), EptProt(protOrig)))
      ensures gpa + size + PAGE_SIZE <= UINT64 ==> BytesMapped(ept.c, old(ept.T()), ept.T(), gpa, size, hpa, EptProt(protOrig))
    {
      WellFormedFacts(ept.c, ept.T());
      hide PageTables.T, CarriedOut, Translate, Allowed, AdmissibleOn, BarsOk, Ok, RangeEnd, BytesMapped, AllEndsDone, RightsDone;
      var prot := protOrig;
      if prot * EPT_MT_MASK != EPT_UNCACHED {
        prot := prot + EPT_SNOOP_CTRL;
      }
      ept.MmuAdd(hpa, gpa, size, prot);
    }

    /** What the two calls ask of the EPT holds for a window. */
    lemma WindowRequests(vbar: PciBar)
      requires Valid() && WindowFits(vbar)
      ensures RangeEnd(vbar.base, vbar.size) <= PCI_VBAR_TOP_LIMIT
      ensures Pml4Present(ept.c, ept.T(), RoundPageDown(vbar.base), RangeEnd(vbar.base, vbar.size))
      ensures Allowed(ept.c, Delete, RoundPageDown(vbar.base), RangeEnd(vbar.base, vbar.size))
      ensures Allowed(ept.c, Establish(RoundPageDown(vbar.base), RoundPageDown(vbar.baseHpa), EPT_WR + EPT_RD),
                      RoundPageDown(vbar.base), RangeEnd(vbar.base, vbar.size))
    {
      WellFormedFacts(ept.c, ept.T());
      hide PageTables.T, Allowed, RangeEnd, BarsOk;
      WindowAllowed(ept.c, vbar);
      FirstPml4Entry(ept.c, ept.T(), RoundPageDown(vbar.base), RangeEnd(vbar.base, vbar.size));
    }

    method VdevPtUnmapMemVbar(k: nat)
      requires Valid() && k < bar.Length
      modifies ept.pdpt, ept.pd, ept.pt
      ensures Valid() && bar[..] == old(bar[..]) && cfgdata[..] == old(cfgdata[..])
      ensures Unmapped(ept.c, old(ept.T()), ept.T(), bar[k])
    {
      BarsOkAt(bar[..], k);
      hide PageTables.T, WellFormed, CarriedOut, Translate, BarsOk;
      ghost var t0 := ept.T();
      if bar[k].base != 0 {
        WindowRequests(bar[k]);
        EptDelMr(bar[k].base, bar[k].size);
        DeletedIsUnmapped(ept.c, t0, ept.T(), bar[k]);
      }
    }

    method VdevPtMapMemVbar(k: nat)
      requires Valid() && k < bar.Length
      modifies ept.pml4, ept.pdpt, ept.pd, ept.pt
      ensures Valid() && bar[..] == old(bar[..]) && cfgdata[..] == old(cfgdata[..])
      ensures Remapped(ept.c, old(ept.T()), ept.T(), bar[k])
    {
      BarsOkAt(bar[..], k);
      hide PageTables.T, WellFormed, CarriedOut, Translate, BarsOk, AdmissibleOn;
      ghost var t0 := ept.T();
      if bar[k].base != 0 {
        WindowBounds(bar[k]);
        WindowRequests(bar[k]);
        WindowProt();
        EptDelMr(bar[k].base, bar[k].size);
        ghost var t1 := ept.T();
        DeletedIsFree(ept.c, t0, t1, bar[k]);
        EptAddMr(bar[k].baseHpa, bar[k].base, bar[k].size, EPT_WR + EPT_RD + EPT_UNCACHED);
        DeletedThenMapped(ept.c, t0, t1, ept.T(), bar[k]);
      }
    }

    /** Set up the BAR registers of a device from its physical ones: pbar are their values, probed the
        values they return after all ones were written, vbarLo and vbarHi the two halves of the bases
        the VM's configuration asks for. */
    method InitVdevPt(d: nat, pbar: seq<bv32>, probed: seq<bv32>, vbarLo: seq<bv32>, vbarHi: seq<bv32>)
      requires Valid() && BarIndex(d, PCI_BAR_COUNT) <= bar.Length
      requires |pbar| == |probed| == |vbarLo| == |vbarHi| == PCI_BAR_COUNT
      requires forall idx: nat :: idx < PCI_BAR_COUNT ==> Unused(bar[..], d, idx) && PbarOk(pbar, probed, idx)
      modifies bar, cfgdata, ept.pml4, ept.pdpt, ept.pd, ept.pt
      ensures Valid()
      ensures WindowsShown(ept.c, old(ept.T()), old(bar[..])) ==> WindowsShown(ept.c, ept.T(), bar[..])
      ensures forall idx: nat :: idx < PCI_BAR_COUNT ==> BarSetUp(bar[..], d, idx, pbar, probed)
      ensures forall idx: nat :: idx < PCI_BAR_COUNT && IsMemoryBar(bar[BarIndex(d, idx)]) ==>
                Programmed(bar[..], cfgdata[..], d, idx, vbarLo[idx], vbarHi[idx])
      ensures RegistersKept(old(cfgdata[..]), cfgdata[..], d, 0)
      ensures BarsKept(old(bar[..]), bar[..], d)
    {
      hide PageTables.T, WellFormed, WindowsShown, Translate, BarSize, PbarBase, PciGetBarType, BarsOk, Programmed, BarSetUp, BarAdded, BarsKept;
      BarsSame(bar[..], d);
      var idx := 0;
      while idx < PCI_BAR_COUNT
        invariant Valid() && idx <= PCI_BAR_COUNT
        invariant forall i: nat :: idx <= i < PCI_BAR_COUNT ==> Unused(bar[..], d, i)
        invariant forall i: nat :: i < idx ==> BarSetUp(bar[..], d, i, pbar, probed)
        invariant idx > 0 ==> bar[BarIndex(d, idx - 1)].barType != PCIBAR_MEM64
        invariant forall i: nat :: i < idx && IsMemoryBar(bar[BarIndex(d, i)]) ==>
                    Programmed(bar[..], cfgdata[..], d, i, vbarLo[i], vbarHi[i])
        invariant RegistersKept(old(cfgdata[..]), cfgdata[..], d, 0)
        invariant WindowsShown(ept.c, old(ept.T()), old(bar[..])) ==> WindowsShown(ept.c, ept.T(), bar[..])
        invariant BarsKept(old(bar[..]), bar[..], d)
      {
        var barType := PciGetBarType(pbar[idx]);
        assert Unused(bar[..], d, idx);
        if barType == PCIBAR_NONE || PbarBase(pbar, idx) == 0 {
          SkippedIsSetUp(bar[..], d, idx, pbar, probed);
          idx := idx + 1;
        } else {
          ghost var bars, cfg := bar[..], cfgdata[..];
          assert PbarOk(pbar, probed, idx);
          InitBar(d, idx, pbar, probed, vbarLo[idx], vbarHi[idx]);
          AddedKeepsSetUp(bars, bar[..], d, idx, pbar, probed);
          AddedToDevice(old(bar[..]), bars, bar[..], d, idx, pbar, probed);
          AllProgrammed(bars, bar[..], cfg, cfgdata[..], d, idx, pbar, probed, vbarLo, vbarHi);
          idx := idx + (if barType == PCIBAR_MEM64 then 2 else 1);
        }
      }
    }

    /** The turn of that loop for a memory BAR with an address. */
    method InitBar(d: nat, idx: nat, pbar: seq<bv32>, probed: seq<bv32>, vbarLo: bv32, vbarHi: bv32)
      requires Valid() && BarIndex(d, PCI_BAR_COUNT) <= bar.Length
      requires idx < |pbar| == |probed| == PCI_BAR_COUNT && PbarOk(pbar, probed, idx)
      requires forall i: nat :: idx <= i < PCI_BAR_COUNT ==> Unused(bar[..], d, i)
      requires PciGetBarType(pbar[idx]) != PCIBAR_NONE
      modifies bar, cfgdata, ept.pml4, ept.pdpt, ept.pd, ept.pt
      ensures Valid()
      ensures WindowsShown(ept.c, old(ept.T()), old(bar[..])) ==> WindowsShown(ept.c, ept.T(), bar[..])
      ensures BarAdded(old(bar[..]), bar[..], d, idx, pbar, probed)
      ensures Programmed(bar[..], cfgdata[..], d, idx, vbarLo, vbarHi)
      ensures RegistersKept(old(cfgdata[..]), cfgdata[..], d, idx)
    {
      hide PageTables.T, WellFormed, WindowsShown, Translate, BarSize, PbarBase, PciGetBarType, Remapped, BarAdded, BarsOk, Programmed;
      ghost var bars0, t0 := bar[..], ept.T();
      InitBarRegisters(d, idx, pbar, probed, vbarLo, vbarHi);
      AddedIsOneWindow(bars0, bar[..], d, idx, pbar, probed);
      VdevPtMapMemVbar(BarIndex(d, idx));
      NewWindowShown(ept.c, t0, ept.T(), bars0, bar[..], BarIndex(d, idx));
    }

    method InitBarRegisters(d: nat, idx: nat, pbar: seq<bv32>, probed: seq<bv32>, vbarLo: bv32, vbarHi: bv32)
      requires Valid() && BarIndex(d, PCI_BAR_COUNT) <= bar.Length
      requires idx < |pbar| == |probed| == PCI_BAR_COUNT && PbarOk(pbar, probed, idx)
      requires forall i: nat :: idx <= i < PCI_BAR_COUNT ==> Unused(bar[..], d, i)
      requires PciGetBarType(pbar[idx]) != PCIBAR_NONE
      modifies bar, cfgdata
      ensures Valid() && ept.T() == old(ept.T())
      ensures BarAdded(old(bar[..]), bar[..], d, idx, pbar, probed)
      ensures Programmed(bar[..], cfgdata[..], d, idx, vbarLo, vbarHi)
      ensures RegistersKept(old(cfgdata[..]), cfgdata[..], d, idx)
    {
      hide PageTables.T, WellFormed, BarSize, PbarBase, PciGetBarType, BarsOk, BarAdded, RegisterWritten, Programmed, RegistersKept, PbarOk;
      ghost var bars0 := bar[..];
      NewBarEntries(d, idx, pbar, probed);
      ghost var bars1, cfg1 := bar[..], cfgdata[..];
      WriteUnmapped(d, idx, vbarLo);
      Rebased(bars0, bars1, bar[..], d, idx, pbar, probed);
      if bar[BarIndex(d, idx)].barType == PCIBAR_MEM64 {
        ghost var bars2, cfg2 := bar[..], cfgdata[..];
        WriteUnmapped(d, idx + 1, vbarHi);
        Rebased(bars0, bars2, bar[..], d, idx, pbar, probed);
        WrittenTwice(bars1, bars2, bar[..], cfg1, cfg2, cfgdata[..], d, idx, vbarLo, vbarHi);
      } else {
        WrittenOnce(bars1, bar[..], cfg1, cfgdata[..], d, idx, vbarLo, vbarHi);
      }
    }

    /** The entries of a BAR before its registers are written. */
    method NewBarEntries(d: nat, idx: nat, pbar: seq<bv32>, probed: seq<bv32>)
      requires Valid() && BarIndex(d, PCI_BAR_COUNT) <= bar.Length
      requires idx < |pbar| == |probed| == PCI_BAR_COUNT && PbarOk(pbar, probed, idx)
      requires forall i: nat :: idx <= i < PCI_BAR_COUNT ==> Unused(bar[..], d, i)
      requires PciGetBarType(pbar[idx]) != PCIBAR_NONE
      modifies bar
      ensures Valid() && ept.T() == old(ept.T())
      ensures BarAdded(old(bar[..]), bar[..], d, idx, pbar, probed)
      ensures var b := bar[BarIndex(d, idx)];
              && b.base == 0 && (b.barType == PCIBAR_MEM32 || b.barType == PCIBAR_MEM64)
              && (b.barType == PCIBAR_MEM64 ==> idx + 1 < PCI_BAR_COUNT && bar[BarIndex(d, idx + 1)].barType == PCIBAR_MEM64HI)
    {
      var barType := PciGetBarType(pbar[idx]);
      ghost var bars0 := bar[..];
      BarTypeIsMemory(pbar[idx]);
      hide PageTables.T, WellFormed, BarSize, PbarBase, PciGetBarType, BarsOk;
      bar[BarIndex(d, idx)] := PciBar(barType, RoundPageUp(BarSize(probed, idx, barType)), 0, PbarBase(pbar, idx),
                                      pbar[idx] & 0xF, probed[idx] & 0xFFFF_FFF0);
      if barType == PCIBAR_MEM64 {
        bar[BarIndex(d, idx + 1)] := PciBar(PCIBAR_MEM64HI, 0, 0, 0, 0, probed[idx + 1]);
      }
      NewBarsOk(bars0, bar[..], d, idx, pbar, probed);
    }

    /** A register write of init_vdev_pt, which does not touch the EPT. */
    method WriteUnmapped(d: nat, idx: nat, val: bv32)
      requires Valid() && idx < PCI_BAR_COUNT && BarIndex(d, idx) < bar.Length
      requires bar[BarIndex(d, idx)].barType != PCIBAR_NONE
      modifies bar, cfgdata
      ensures Valid() && ept.T() == old(ept.T())
      ensures bar[BarIndex(d, idx)].barType == old(bar[BarIndex(d, idx)].barType)
      ensures old(bar[BarIndex(d, idx)].barType) == PCIBAR_MEM64HI ==> idx > 0
      ensures var u := BarIndex(d, UpdateIdx(old(bar[..]), d, idx));
              bar[..] == old(bar[..])[u := old(bar[..])[u].(base := bar[u].base)]
      ensures RegisterWritten(old(bar[..]), bar[..], old(cfgdata[..]), cfgdata[..], d, idx, val)
    {
      hide PageTables.T, WellFormed, RegisterValue, Masked, ProgrammedBase, CheckedBase;
      InDevice(d, idx);
      ghost var bars0 := bar[..];
      PciVdevWriteBar(d, idx, val);
      ghost var u := UpdateIdx(bars0, d, idx);
      ProgrammedIsProgrammable(bars0, cfgdata[..], d, u);
      ProgrammedZero(bars0, cfgdata[..], d, u);
      CheckedBaseOk(bars0, d, u, ProgrammedBase(bars0, cfgdata[..], d, u));
    }

    /** A guest write to a BAR register. */
    method VdevPtWriteVbar(d: nat, idx: nat, val: bv32)
      requires Valid() && idx < PCI_BAR_COUNT && BarIndex(d, idx) < bar.Length
      modifies bar, cfgdata, ept.pml4, ept.pdpt, ept.pd, ept.pt
      ensures Valid()
      ensures old(bar[BarIndex(d, idx)].barType) == PCIBAR_NONE ==>
                bar[..] == old(bar[..]) && cfgdata[..] == old(cfgdata[..]) && ept.T() == old(ept.T())
      ensures old(bar[BarIndex(d, idx)].barType) != PCIBAR_NONE ==>
                BarWritten(ept.c, old(ept.T()), ept.T(), old(bar[..]), bar[..], old(cfgdata[..]), cfgdata[..], d, idx, val)
      ensures OnlyWindows(ept.c, old(ept.T()), old(bar[..])) ==> OnlyWindows(ept.c, ept.T(), bar[..])
      ensures AllWindows(ept.c, old(ept.T()), old(bar[..])) && WindowsApart(old(bar[..])) && WindowsApart(bar[..]) ==>
                AllWindows(ept.c, ept.T(), bar[..])
    {
      hide BarsOk, RegisterValue, ProgrammedBase, CheckedBase, PageTables.T, WellFormed, CarriedOut, Translate, OnlyWindows, AllWindows,
           WindowsApart, Unmapped, Remapped, Moved;
      var updateIdx := idx;
      InDevice(d, idx);
      var vbar := bar[BarIndex(d, idx)];
      ghost var t0, bars0 := ept.T(), bar[..];
      if vbar.barType == PCIBAR_NONE {
        return;
      }
      if vbar.barType == PCIBAR_MEM64HI {
        updateIdx := updateIdx - 1;
      }
      ghost var k := BarIndex(d, updateIdx);
      VdevPtUnmapMemVbar(BarIndex(d, updateIdx));
      ghost var t1 := ept.T();
      PciVdevWriteBar(d, idx, val);
      ProgrammedIsProgrammable(bars0, cfgdata[..], d, updateIdx);
      CheckedBaseOk(bars0, d, updateIdx, ProgrammedBase(bars0, cfgdata[..], d, updateIdx));
      VdevPtMapMemVbar(BarIndex(d, updateIdx));
      UnmappedThenRemapped(ept.c, t0, t1, ept.T(), bars0[k], bar[k]);
      WriteKeepsWindows(ept.c, t0, ept.T(), bars0, k, bar[k]);
    }

    /** Any run of guest writes: the guest sees nothing but BARs at their windows, and while windows are
        disjoint it sees all of every window. */
    method GuestWrites(writes: seq<BarWrite>) returns (ghost history: seq<Registers>)
      requires Valid()
      requires forall i :: 0 <= i < |writes| ==> writes[i].idx < PCI_BAR_COUNT && BarIndex(writes[i].d, writes[i].idx) < bar.Length
      modifies bar, cfgdata, ept.pml4, ept.pdpt, ept.pd, ept.pt
      ensures Valid()
      ensures |history| == |writes| + 1
      ensures history[0] == Registers(old(bar[..]), old(cfgdata[..])) && history[|writes|] == Registers(bar[..], cfgdata[..])
      ensures forall i :: 0 <= i < |writes| ==> GuestWrite(history[i], history[i + 1], writes[i])
      ensures OnlyWindows(ept.c, old(ept.T()), old(bar[..])) ==> OnlyWindows(ept.c, ept.T(), bar[..])
      ensures AllWindows(ept.c, old(ept.T()), old(bar[..])) && StayApart(history) ==>
                AllWindows(ept.c, ept.T(), bar[..])
    {
      hide BarsOk, PageTables.T, WellFormed, OnlyWindows, AllWindows, WindowsApart, StayApart, Vpci.Valid, RegisterWritten, Moved;
      history := [Registers(bar[..], cfgdata[..])];
      var i := 0;
      while i < |writes|
        invariant Valid() && i <= |writes| && |history| == i + 1
        invariant history[0] == Registers(old(bar[..]), old(cfgdata[..])) && history[i] == Registers(bar[..], cfgdata[..])
        invariant forall j :: 0 <= j < i ==> GuestWrite(history[j], history[j + 1], writes[j])
        invariant OnlyWindows(ept.c, old(ept.T()), old(bar[..])) ==> OnlyWindows(ept.c, ept.T(), bar[..])
        invariant AllWindows(ept.c, old(ept.T()), old(bar[..])) && StayApart(history) ==>
                    AllWindows(ept.c, ept.T(), bar[..])
      {
        ghost var w, r := writes[i], history[i];
        assert bar[..][BarIndex(w.d, w.idx)] == bar[BarIndex(w.d, w.idx)];
        VdevPtWriteVbar(writes[i].d, writes[i].idx, writes[i].val);
        assert GuestWrite(r, Registers(bar[..], cfgdata[..]), w);
        ApartSoFar(history, Registers(bar[..], cfgdata[..]));
        history := history + [Registers(bar[..], cfgdata[..])];
        i := i + 1;
      }
    }

    /** A guest places a memory BAR at an address in the MMIO space: one write, or two in either order. From
        then on the BAR is there, and all of it is shown. */
    method ProgramBar(d: nat, idx: nat, x: bv32, upperFirst: bool)
      requires Valid() && idx < PCI_BAR_COUNT && BarIndex(d, idx) < bar.Length && Placeable(bar[BarIndex(d, idx)], x)
      modifies bar, cfgdata, ept.pml4, ept.pdpt, ept.pd, ept.pt
      ensures Valid()
      ensures var k := BarIndex(d, idx); bar[..] == old(bar[..])[k := old(bar[..])[k].(base := x as nat)]
      ensures ShowsDevice(ept.c, ept.T(), bar[BarIndex(d, idx)])
    {
      if bar[BarIndex(d, idx)].barType == PCIBAR_MEM64 {
        PairWritten(d, idx, x, upperFirst);
      } else {
        ProgramSingle(d, idx, x);
      }
    }

    method ProgramSingle(d: nat, idx: nat, x: bv32)
      requires Valid() && idx < PCI_BAR_COUNT && BarIndex(d, idx) < bar.Length && Placeable(bar[BarIndex(d, idx)], x)
      requires bar[BarIndex(d, idx)].barType == PCIBAR_MEM32
      modifies bar, cfgdata, ept.pml4, ept.pdpt, ept.pd, ept.pt
      ensures Valid()
      ensures var k := BarIndex(d, idx); bar[..] == old(bar[..])[k := old(bar[..])[k].(base := x as nat)]
      ensures ShowsDevice(ept.c, ept.T(), bar[BarIndex(d, idx)])
    {
      ghost var bars, cfg, t := bar[..], cfgdata[..], ept.T();
      InDevice(d, idx);
      hide Vpci.Valid, BarsOk, BitsOk, PageTables.T, OnlyWindows, AllWindows, WindowsApart, BarWritten, ShowsDevice, Placeable;
      VdevPtWriteVbar(d, idx, x);
      SinglePlaced(ept.c, t, ept.T(), bars, bar[..], cfg, cfgdata[..], d, idx, x);
    }

    method PairWritten(d: nat, idx: nat, x: bv32, upperFirst: bool)
      requires Valid() && idx < PCI_BAR_COUNT && BarIndex(d, idx) < bar.Length && Placeable(bar[BarIndex(d, idx)], x)
      requires bar[BarIndex(d, idx)].barType == PCIBAR_MEM64
      modifies bar, cfgdata, ept.pml4, ept.pdpt, ept.pd, ept.pt
      ensures Valid()
      ensures var k := BarIndex(d, idx); bar[..] == old(bar[..])[k := old(bar[..])[k].(base := x as nat)]
      ensures ShowsDevice(ept.c, ept.T(), bar[BarIndex(d, idx)])
    {
      ghost var bars, cfg, t := bar[..], cfgdata[..], ept.T();
      var first, second := if upperFirst then idx + 1 else idx, if upperFirst then idx else idx + 1;
      var v1: bv32, v2: bv32 := if upperFirst then 0 else x, if upperFirst then x else 0;
      InDevice(d, idx);
      InDevice(d, idx + 1);
      UpperHasNoBits(bar[BarIndex(d, idx + 1)]);
      hide Vpci.Valid, BarsOk, BitsOk, PageTables.T, OnlyWindows, AllWindows, WindowsApart, BarWritten, ShowsDevice, Placeable;
      VdevPtWriteVbar(d, first, v1);
      ghost var bars1, cfg1, t1 := bar[..], cfgdata[..], ept.T();
      FirstWriteKeeps(ept.c, t, t1, bars, bars1, cfg, cfg1, d, idx, first, v1);
      VdevPtWriteVbar(d, second, v2);
      PairPlaced(ept.c, t, t1, ept.T(), bars, bars1, bar[..], cfg, cfg1, cfgdata[..], d, idx, x, upperFirst);
    }

    lemma UpperHasNoBits(b: PciBar)
      requires BitsOk(b) && b.barType == PCIBAR_MEM64HI
      ensures b.fixed == 0
    {
    }
  }

  // ---- Programming a BAR ----

  /** Every byte of a BAR is shown, where the two bases say if these lie alike in their pages. */
  ghost predicate ShowsDevice(c: Config, t: Tables, b: PciBar) {
    forall a: nat :: b.base <= a < b.base + b.size ==>
      && Translate(c, t, a).Some?
      && Translate(c, t, a).value.prot == {0, 1}
      && Translate(c, t, a).value.paddr + (b.base - b.base % PAGE_SIZE) == (b.baseHpa - b.baseHpa % PAGE_SIZE) + a
  }

  /** Its first byte is the device's first one exactly if they do. */
  lemma FirstByteShown(c: Config, t: Tables, b: PciBar)
    requires ShowsDevice(c, t, b) && b.size > 0
    ensures Translate(c, t, b.base) == Some(Mapping(b.baseHpa, {0, 1})) <==> b.base % PAGE_SIZE == b.baseHpa % PAGE_SIZE
  {
    hide Translate;
  }

  lemma LowerExpressed(b: PciBar, x: bv32)
    requires BitsOk(b) && IsMemoryBar(b) && CanHold(b.mask, x)
    ensures Masked(RegisterValue(b, x), b.mask) == x as nat && RegisterValue(b, x) != ALL_ONES
  {
    hide Masked, Writable;
    LowerWritten(x, b.mask, b.fixed);
  }

  lemma LowerWritten(x: bv32, mask: bv32, fixed: bv32)
    requires fixed & mask == 0 && mask & 1 == 0 && fixed & 1 == 0 && CanHold(mask, x)
    ensures Masked(Writable(x, mask, fixed), mask) == x as nat && Writable(x, mask, fixed) != ALL_ONES
  {
    WritableBits(x, mask, fixed);
    NeverAllOnes(x, mask, fixed);
    hide Writable;
  }

  lemma UpperExpressed(b: PciBar)
    requires b.fixed == 0
    ensures Masked(RegisterValue(b, 0), b.mask) == 0 && RegisterValue(b, 0) != ALL_ONES
  {
  }

  /** An address below 4 GByte at which a memory BAR can be placed. */
  predicate Placeable(b: PciBar, x: bv32) {
    IsMemoryBar(b) && CanHold(b.mask, x) && InMmioSpace(x as nat, b.size)
  }

  predicate CanHold(mask: bv32, x: bv32) {
    x & mask == x
  }

  /** The registers of a BAR have been written with such an address. */
  ghost predicate HoldsWritten(bars: seq<PciBar>, cfg: seq<bv32>, d: nat, idx: nat, x: bv32) {
    && BarIndex(d, idx) < |bars| && RegIndex(d, idx) < |cfg|
    && cfg[RegIndex(d, idx)] == RegisterValue(bars[BarIndex(d, idx)], x)
    && (bars[BarIndex(d, idx)].barType == PCIBAR_MEM64 ==>
          && BarIndex(d, idx + 1) < |bars| && RegIndex(d, idx + 1) < |cfg|
          && bars[BarIndex(d, idx + 1)].fixed == 0
          && cfg[RegIndex(d, idx + 1)] == RegisterValue(bars[BarIndex(d, idx + 1)], 0))
  }

  lemma WrittenExpresses(bars: seq<PciBar>, cfg: seq<bv32>, d: nat, idx: nat, x: bv32)
    requires HoldsWritten(bars, cfg, d, idx, x)
    requires Placeable(bars[BarIndex(d, idx)], x) && BitsOk(bars[BarIndex(d, idx)])
    ensures Expresses(bars, cfg, d, idx, x as nat)
  {
    hide Masked, RegisterValue, BitsOk, Placeable;
    var b := bars[BarIndex(d, idx)];
    PlacedInMmio(b, x);
    LowerExpressed(b, x);
    if b.barType == PCIBAR_MEM64 {
      UpperExpressed(bars[BarIndex(d, idx + 1)]);
    }
    LowExpresses(bars, cfg, d, idx, x as nat);
  }

  lemma LowExpresses(bars: seq<PciBar>, cfg: seq<bv32>, d: nat, idx: nat, n: nat)
    requires BarIndex(d, idx) < |bars| && RegIndex(d, idx) < |cfg| && n < HI_UNIT && IsMemoryBar(bars[BarIndex(d, idx)])
    requires Masked(cfg[RegIndex(d, idx)], bars[BarIndex(d, idx)].mask) == n && cfg[RegIndex(d, idx)] != ALL_ONES
    requires bars[BarIndex(d, idx)].barType == PCIBAR_MEM64 ==>
               && BarIndex(d, idx + 1) < |bars| && RegIndex(d, idx + 1) < |cfg|
               && Masked(cfg[RegIndex(d, idx + 1)], bars[BarIndex(d, idx + 1)].mask) == 0 && cfg[RegIndex(d, idx + 1)] != ALL_ONES
    ensures Expresses(bars, cfg, d, idx, n)
  {
    hide Masked;
    Halves(n, n, 0);
  }

  /** A BAR whose registers hold an address has it as its base if the window fits. */
  lemma ExpressedIsBase(bars: seq<PciBar>, bars': seq<PciBar>, cfg: seq<bv32>, d: nat, idx: nat, x: nat)
    requires RebasedBar(bars, bars', cfg, d, idx) && bars[BarIndex(d, idx)].barType != PCIBAR_MEM64HI
    requires Expresses(bars, cfg, d, idx, x) && InMmioSpace(x, bars[BarIndex(d, idx)].size)
    ensures bars' == bars[BarIndex(d, idx) := bars[BarIndex(d, idx)].(base := x)]
  {
    hide Masked, Expresses, ProgrammedBase;
    BaseExpressed(bars, cfg, d, idx, x);
    assert (x + bars[BarIndex(d, idx)].size) % UINT64 == x + bars[BarIndex(d, idx)].size;
  }

  /** The last write to the registers of a BAR places it. */
  lemma LastWritePlaces(bars: seq<PciBar>, bars': seq<PciBar>, cfg: seq<bv32>, cfg': seq<bv32>, d: nat, idx: nat, i: nat, val: bv32,
                        x: bv32)
    requires RegisterWritten(bars, bars', cfg, cfg', d, i, val) && UpdateIdx(bars, d, i) == idx
    requires HoldsWritten(bars, cfg', d, idx, x) && Placeable(bars[BarIndex(d, idx)], x) && BitsOk(bars[BarIndex(d, idx)])
    ensures bars' == bars[BarIndex(d, idx) := bars[BarIndex(d, idx)].(base := x as nat)]
  {
    PlacedInMmio(bars[BarIndex(d, idx)], x);
    hide RegisterValue, HoldsWritten, BitsOk, Expresses, RebasedBar, Placeable, InMmioSpace;
    WrittenExpresses(bars, cfg', d, idx, x);
    assert RebasedBar(bars, bars', cfg', d, idx);
    ExpressedIsBase(bars, bars', cfg', d, idx, x as nat);
  }

  lemma PlacedInMmio(b: PciBar, x: bv32)
    requires Placeable(b, x)
    ensures InMmioSpace(x as nat, b.size) && 0 < x as nat < HI_UNIT && IsMemoryBar(b) && CanHold(b.mask, x)
  {
    hide CanHold;
  }

  lemma SamePlaceable(b: PciBar, b': PciBar, x: bv32)
    requires b'.barType == b.barType && b'.size == b.size && b'.mask == b.mask
    ensures Placeable(b', x) == Placeable(b, x)
  {
    hide CanHold, InMmioSpace;
  }

  lemma SingleWritten(bars: seq<PciBar>, bars': seq<PciBar>, cfg: seq<bv32>, cfg': seq<bv32>, d: nat, idx: nat, x: bv32)
    requires RegisterWritten(bars, bars', cfg, cfg', d, idx, x) && bars[BarIndex(d, idx)].barType == PCIBAR_MEM32
    ensures HoldsWritten(bars, cfg', d, idx, x) && UpdateIdx(bars, d, idx) == idx && |bars'| == |bars|
  {
    hide RegisterValue, ProgrammedBase, CheckedBase;
  }

  lemma SinglePlaced(c: Config, t: Tables, t': Tables, bars: seq<PciBar>, bars': seq<PciBar>, cfg: seq<bv32>, cfg': seq<bv32>,
                     d: nat, idx: nat, x: bv32)
    requires BarIndex(d, idx) < |bars| && bars[BarIndex(d, idx)].barType == PCIBAR_MEM32
    requires Placeable(bars[BarIndex(d, idx)], x) && BitsOk(bars[BarIndex(d, idx)])
    requires BarWritten(c, t, t', bars, bars', cfg, cfg', d, idx, x)
    ensures |bars'| == |bars| && bars' == bars[BarIndex(d, idx) := bars[BarIndex(d, idx)].(base := x as nat)]
    ensures ShowsDevice(c, t', bars'[BarIndex(d, idx)])
  {
    hide *;
    RegisterOfBar(c, t, t', bars, bars', cfg, cfg', d, idx, x);
    SingleWritten(bars, bars', cfg, cfg', d, idx, x);
    LastWritePlaces(bars, bars', cfg, cfg', d, idx, idx, x, x);
    WindowMoved(c, t, t', bars, bars', cfg, cfg', d, idx, idx, x);
    PlacedShows(c, t, t', bars[BarIndex(d, idx)], bars'[BarIndex(d, idx)], x);
  }

  /** The first of two writes to a pair changes its base only. */
  lemma FirstWriteKeeps(c: Config, t: Tables, t1: Tables, bars: seq<PciBar>, bars1: seq<PciBar>, cfg: seq<bv32>, cfg1: seq<bv32>,
                        d: nat, idx: nat, first: nat, val: bv32)
    requires BarIndex(d, idx + 1) < |bars| && bars[BarIndex(d, idx)].barType == PCIBAR_MEM64 && bars[BarIndex(d, idx + 1)].barType == PCIBAR_MEM64HI
    requires (first == idx || first == idx + 1) && BarWritten(c, t, t1, bars, bars1, cfg, cfg1, d, first, val)
    ensures var k := BarIndex(d, idx);
            && |bars1| == |bars| && bars1 == bars[k := bars[k].(base := bars1[k].base)]
            && UpdateIdx(bars1, d, idx) == UpdateIdx(bars1, d, idx + 1) == idx
  {
    hide RegisterValue, ProgrammedBase, CheckedBase, Moved;
  }

  /** The second one places it. */
  lemma PairPlaced(c: Config, t: Tables, t1: Tables, t2: Tables, bars: seq<PciBar>, bars1: seq<PciBar>, bars2: seq<PciBar>,
                   cfg: seq<bv32>, cfg1: seq<bv32>, cfg2: seq<bv32>, d: nat, idx: nat, x: bv32, upperFirst: bool)
    requires BarIndex(d, idx + 1) < |bars| && bars[BarIndex(d, idx)].barType == PCIBAR_MEM64
    requires bars[BarIndex(d, idx + 1)].barType == PCIBAR_MEM64HI && bars[BarIndex(d, idx + 1)].fixed == 0
    requires Placeable(bars[BarIndex(d, idx)], x) && BitsOk(bars[BarIndex(d, idx)])
    requires BarWritten(c, t, t1, bars, bars1, cfg, cfg1, d, if upperFirst then idx + 1 else idx, if upperFirst then 0 else x)
    requires BarWritten(c, t1, t2, bars1, bars2, cfg1, cfg2, d, if upperFirst then idx else idx + 1, if upperFirst then x else 0)
    ensures |bars2| == |bars| && bars2 == bars[BarIndex(d, idx) := bars[BarIndex(d, idx)].(base := x as nat)]
    ensures ShowsDevice(c, t2, bars2[BarIndex(d, idx)])
  {
    hide BarWritten, Moved, BitsOk, Placeable, ShowsDevice, UpdateIdx;
    FirstWriteKeeps(c, t, t1, bars, bars1, cfg, cfg1, d, idx, if upperFirst then idx + 1 else idx, if upperFirst then 0 else x);
    PairBase(c, t, t1, t2, bars, bars1, bars2, cfg, cfg1, cfg2, d, idx, x, upperFirst);
    WindowMoved(c, t1, t2, bars1, bars2, cfg1, cfg2, d, idx, if upperFirst then idx else idx + 1, if upperFirst then x else 0);
    var k := BarIndex(d, idx);
    SamePlaceable(bars[k], bars1[k], x);
    PlacedShows(c, t1, t2, bars1[k], bars2[k], x);
  }

  lemma RegisterOfBar(c: Config, t: Tables, t': Tables, bars: seq<PciBar>, bars': seq<PciBar>, cfg: seq<bv32>, cfg': seq<bv32>,
                      d: nat, idx: nat, val: bv32)
    requires BarWritten(c, t, t', bars, bars', cfg, cfg', d, idx, val)
    ensures RegisterWritten(bars, bars', cfg, cfg', d, idx, val)
  {
    hide Moved, RegisterWritten;
  }

  lemma WindowMoved(c: Config, t: Tables, t': Tables, bars: seq<PciBar>, bars': seq<PciBar>, cfg: seq<bv32>, cfg': seq<bv32>,
                    d: nat, idx: nat, i: nat, val: bv32)
    requires BarWritten(c, t, t', bars, bars', cfg, cfg', d, i, val) && UpdateIdx(bars, d, i) == idx
    requires BarIndex(d, idx) < |bars| == |bars'|
    ensures Moved(c, t, t', bars[BarIndex(d, idx)], bars'[BarIndex(d, idx)])
  {
    hide Moved, RegisterValue, RebasedBar, UpdateIdx;
  }

  lemma PlacedShows(c: Config, t: Tables, t': Tables, before: PciBar, after: PciBar, x: bv32)
    requires Moved(c, t, t', before, after) && Placeable(before, x) && after == before.(base := x as nat)
    ensures ShowsDevice(c, t', after)
  {
    hide *;
    PlacedInMmio(before, x);
    MovedShows(c, t, t', before, after);
  }

  lemma PairBase(c: Config, t: Tables, t1: Tables, t2: Tables, bars: seq<PciBar>, bars1: seq<PciBar>, bars2: seq<PciBar>,
                 cfg: seq<bv32>, cfg1: seq<bv32>, cfg2: seq<bv32>, d: nat, idx: nat, x: bv32, upperFirst: bool)
    requires BarIndex(d, idx + 1) < |bars| && bars[BarIndex(d, idx)].barType == PCIBAR_MEM64
    requires bars[BarIndex(d, idx + 1)].barType == PCIBAR_MEM64HI && bars[BarIndex(d, idx + 1)].fixed == 0
    requires Placeable(bars[BarIndex(d, idx)], x) && BitsOk(bars[BarIndex(d, idx)])
    requires BarWritten(c, t, t1, bars, bars1, cfg, cfg1, d, if upperFirst then idx + 1 else idx, if upperFirst then 0 else x)
    requires BarWritten(c, t1, t2, bars1, bars2, cfg1, cfg2, d, if upperFirst then idx else idx + 1, if upperFirst then x else 0)
    requires |bars1| == |bars| && bars1 == bars[BarIndex(d, idx) := bars[BarIndex(d, idx)].(base := bars1[BarIndex(d, idx)].base)]
    requires UpdateIdx(bars1, d, idx) == UpdateIdx(bars1, d, idx + 1) == idx
    ensures |bars2| == |bars| && bars2 == bars[BarIndex(d, idx) := bars[BarIndex(d, idx)].(base := x as nat)]
  {
    var k := BarIndex(d, idx);
    hide RegisterWritten, Moved, BitsOk, Placeable, UpdateIdx, HoldsWritten;
    SameBits(bars[k], bars1[k]);
    SamePlaceable(bars[k], bars1[k], x);
    BothWritten(bars, bars1, bars2, cfg, cfg1, cfg2, d, idx, x, upperFirst);
    LastWritePlaces(bars1, bars2, cfg1, cfg2, d, idx, if upperFirst then idx else idx + 1, if upperFirst then x else 0, x);
  }

  lemma BothWritten(bars: seq<PciBar>, bars1: seq<PciBar>, bars2: seq<PciBar>, cfg: seq<bv32>, cfg1: seq<bv32>, cfg2: seq<bv32>,
                    d: nat, idx: nat, x: bv32, upperFirst: bool)
    requires BarIndex(d, idx + 1) < |bars| && bars[BarIndex(d, idx)].barType == PCIBAR_MEM64 && bars[BarIndex(d, idx + 1)].fixed == 0
    requires var k := BarIndex(d, idx); |bars1| == |bars| && bars1 == bars[k := bars[k].(base := bars1[k].base)]
    requires RegisterWritten(bars, bars1, cfg, cfg1, d, if upperFirst then idx + 1 else idx, if upperFirst then 0 else x)
    requires RegisterWritten(bars1, bars2, cfg1, cfg2, d, if upperFirst then idx else idx + 1, if upperFirst then x else 0)
    ensures HoldsWritten(bars1, cfg2, d, idx, x)
  {
    hide RegisterValue, RebasedBar;
    SameRegisterValue(bars[BarIndex(d, idx)], bars1[BarIndex(d, idx)], x);
  }

  lemma MovedShows(c: Config, t: Tables, t': Tables, before: PciBar, after: PciBar)
    requires Moved(c, t, t', before, after) && after.base != 0 && InMmioSpace(after.base, after.size)
    ensures ShowsDevice(c, t', after)
  {
    hide Translate, InWindow, WindowMapping;
    forall a: nat | after.base <= a < after.base + after.size
      ensures InWindow(after, a) && Translate(c, t', a) == Some(WindowMapping(after, a))
      ensures WindowMapping(after, a).prot == {0, 1}
      ensures WindowMapping(after, a).paddr + (after.base - after.base % PAGE_SIZE)
           == (after.baseHpa - after.baseHpa % PAGE_SIZE) + a
    {
      assert PageOf(a) == a / PAGE_SIZE;
      assert HoldsBytes(after.base, after.size, a);
      WindowBytes(after, a);
    }
  }

  datatype BarWrite = BarWrite(d: nat, idx: nat, val: bv32)

  datatype Registers = Registers(bars: seq<PciBar>, cfg: seq<bv32>)

  ghost predicate StayApart(history: seq<Registers>) {
    forall i :: 0 <= i < |history| ==> WindowsApart(history[i].bars)
  }

  lemma ApartSoFar(history: seq<Registers>, r: Registers)
    requires history != []
    ensures StayApart(history + [r]) ==> StayApart(history) && WindowsApart(history[|history| - 1].bars) && WindowsApart(r.bars)
  {
    hide WindowsApart;
    var h := history + [r];
    assert forall i :: 0 <= i < |history| ==> h[i] == history[i];
    assert h[|history|] == r;
  }

  /** What a write does to BARs and configuration space. */
  ghost predicate GuestWrite(r: Registers, r': Registers, w: BarWrite) {
    BarIndex(w.d, w.idx) < |r.bars| &&
    if r.bars[BarIndex(w.d, w.idx)].barType == PCIBAR_NONE then r' == r
    else RegisterWritten(r.bars, r'.bars, r.cfg, r'.cfg, w.d, w.idx, w.val)
  }

  /** BAR idx has the base its registers hold, checked; nothing else changed. */
  ghost predicate RebasedBar(bars: seq<PciBar>, bars': seq<PciBar>, cfg: seq<bv32>, d: nat, idx: nat) {
    var k := BarIndex(d, idx);
    && k < |bars| && RegIndex(d, idx) < |cfg|
    && (bars[k].barType == PCIBAR_MEM64 ==> BarIndex(d, idx + 1) < |bars| && RegIndex(d, idx + 1) < |cfg|)
    && bars' == bars[k := bars[k].(base := CheckedBase(ProgrammedBase(bars, cfg, d, idx), bars[k].size))]
  }

  /** What a guest write to a BAR register does: the register takes the writable bits of the value,
      the base follows the registers, and the window moves from the old base to the new one. */
  ghost predicate BarWritten(c: Config, t: Tables, t': Tables, bars: seq<PciBar>, bars': seq<PciBar>,
                             cfg: seq<bv32>, cfg': seq<bv32>, d: nat, idx: nat, val: bv32) {
    && RegisterWritten(bars, bars', cfg, cfg', d, idx, val)
    && Moved(c, t, t', bars[BarIndex(d, UpdateIdx(bars, d, idx))], bars'[BarIndex(d, UpdateIdx(bars, d, idx))])
  }
}
