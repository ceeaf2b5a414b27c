/** The 16-byte entries of the VT-d remapping structures and of the invalidation queue, bit by bit
    (vtd.c, vtd.h). */
module VtdEntries {
  /** struct dmar_entry: an entry of the root table, of a context table, of the interrupt remapping
      table, or a descriptor of the invalidation queue. */
  datatype DmarEntry = DmarEntry(hi: bv64, lo: bv64)

  const EMPTY: DmarEntry := DmarEntry(0, 0)

  const ROOT_ENTRY_LOWER_PRESENT_MASK: bv64 := 0x1
  const ROOT_ENTRY_LOWER_CTP_MASK: bv64 := 0xFFFF_FFFF_FFFF_F000
  const CTX_ENTRY_UPPER_AW_MASK: bv64 := 0x7
  const CTX_ENTRY_UPPER_DID_MASK: bv64 := 0xFF_FF00
  const CTX_ENTRY_LOWER_P_MASK: bv64 := 0x1
  const CTX_ENTRY_LOWER_TT_MASK: bv64 := 0xC
  const CTX_ENTRY_LOWER_SLPTPTR_MASK: bv64 := 0xFFFF_FFFF_FFFF_F000
  const DMAR_CTX_TT_UNTRANSLATED: bv64 := 0
  const PAGE_OFFSET: bv64 := 0xFFF

  // ---- Fields ----

  function DmarGetBitslice(v: bv64, mask: bv64, pos: bv8): bv64
    requires pos < 64
  {
    (v & mask) >> pos
  }

  function DmarSetBitslice(v: bv64, mask: bv64, pos: bv8, val: bv64): bv64
    requires pos < 64
  {
    (v & !mask) | ((val << pos) & mask)
  }

  /** The fields of vtd.c, with their masks and positions. */
  datatype Field = PresentField | CtpField | AddressWidthField | DomainField | TranslationTypeField

  function Mask(f: Field): bv64 {
    match f
    case PresentField => ROOT_ENTRY_LOWER_PRESENT_MASK
    case CtpField => ROOT_ENTRY_LOWER_CTP_MASK
    case AddressWidthField => CTX_ENTRY_UPPER_AW_MASK
    case DomainField => CTX_ENTRY_UPPER_DID_MASK
    case TranslationTypeField => CTX_ENTRY_LOWER_TT_MASK
  }

  function Pos(f: Field): (pos: bv8)
    ensures pos < 64
  {
    match f
    case PresentField => 0
    case CtpField => 12
    case AddressWidthField => 0
    case DomainField => 8
    case TranslationTypeField => 2
  }

  /** The bits of a value that fit a field. */
  function Fitting(val: bv64, mask: bv64, pos: bv8): bv64
    requires pos < 64
  {
    val & (mask >> pos)
  }

  /** The bits outside a field are the same. */
  predicate OthersKept(v: bv64, v': bv64, mask: bv64) {
    v' & !mask == v & !mask
  }

  /** Setting a field sets it to as much of the value as it holds, and sets nothing else. */
  lemma SliceSet(v: bv64, f: Field, val: bv64)
    ensures DmarGetBitslice(DmarSetBitslice(v, Mask(f), Pos(f), val), Mask(f), Pos(f)) == Fitting(val, Mask(f), Pos(f))
    ensures OthersKept(v, DmarSetBitslice(v, Mask(f), Pos(f), val), Mask(f))
  {
    hide DmarGetBitslice, DmarSetBitslice, Fitting, OthersKept;
    match f
    case PresentField => PresentSet(v, val); SliceMixed(v, Mask(f), Pos(f), val);
    case CtpField => TablePointerSet(v, val); SliceMixed(v, Mask(f), Pos(f), val);
    case AddressWidthField => AddressWidthSet(v, val); SliceMixed(v, Mask(f), Pos(f), val);
    case DomainField => DomainSet(v, val); SliceMixed(v, Mask(f), Pos(f), val);
    case TranslationTypeField => TranslationTypeSet(v, val); SliceMixed(v, Mask(f), Pos(f), val);
  }

  lemma SliceMixed(v: bv64, mask: bv64, pos: bv8, val: bv64)
    requires pos < 64
    ensures OthersKept(v, DmarSetBitslice(v, mask, pos, val), mask)
  {
    Mixed(v, mask, val << pos);
  }

  lemma Mixed(v: bv64, mask: bv64, y: bv64)
    ensures OthersKept(v, (v & !mask) | (y & mask), mask)
  {
  }

  lemma PresentSet(v: bv64, val: bv64)
    ensures DmarGetBitslice(DmarSetBitslice(v, 0x1, 0, val), 0x1, 0) == Fitting(val, 0x1, 0)
  {
  }

  lemma TablePointerSet(v: bv64, val: bv64)
    ensures var mask := ROOT_ENTRY_LOWER_CTP_MASK;
            DmarGetBitslice(DmarSetBitslice(v, mask, 12, val), mask, 12) == Fitting(val, mask, 12)
  {
  }

  lemma AddressWidthSet(v: bv64, val: bv64)
    ensures DmarGetBitslice(DmarSetBitslice(v, 0x7, 0, val), 0x7, 0) == Fitting(val, 0x7, 0)
  {
  }

  lemma DomainSet(v: bv64, val: bv64)
    ensures var mask := CTX_ENTRY_UPPER_DID_MASK;
            DmarGetBitslice(DmarSetBitslice(v, mask, 8, val), mask, 8) == Fitting(val, mask, 8)
  {
  }

  lemma TranslationTypeSet(v: bv64, val: bv64)
    ensures DmarGetBitslice(DmarSetBitslice(v, 0xC, 2, val), 0xC, 2) == Fitting(val, 0xC, 2)
  {
  }

  function WidthToLevel(width: bv32): bv8 {
    (((width - 12) / 9) & 0xFF) as bv8
  }

  function WidthToAw(width: bv32): bv8 {
    WidthToLevel(width) - 2
  }

  /** The address-width codes of section 9.3 of the VT-d specification: 1 for 39 bits and a 3-level
      table, 2 for 48 bits and 4 levels, 3 for 57 bits and 5 levels. */
  lemma WidthCodes(width: bv32)
    requires width == 39 || width == 48 || width == 57
    ensures WidthToAw(width) == if width == 39 then 1 else if width == 48 then 2 else 3
  {
  }

  function VmidToDomainid(vmId: bv16): bv16 {
    vmId + 1
  }

  /** VMs have their own domains, one above their identifiers, and none has domain 0, which the
      architecture reserves. The last VM identifier wraps to it. */
  lemma DomainsApart(vm: bv16, vm': bv16)
    ensures VmidToDomainid(vm) - vm == 1
    ensures VmidToDomainid(vm) == VmidToDomainid(vm') <==> vm == vm'
    ensures VmidToDomainid(vm) != 0 <==> vm != 0xFFFF
  {
  }

  function PciBdf(bus: bv8, devfun: bv8): bv16 {
    (bus as bv16 << 8) | devfun as bv16
  }

  /** The source identifier of a request as the hardware reads it: bus in the upper byte, device and
      function in the lower one. */
  predicate IsSource(sid: bv16, bus: bv8, devfun: bv8) {
    sid >> 8 == bus as bv16 && sid & 0xFF == devfun as bv16
  }

  lemma SourceReadsBack(bus: bv8, devfun: bv8)
    ensures IsSource(PciBdf(bus, devfun), bus, devfun)
  {
  }

  /** No other device has the same identifier. */
  lemma SourcesApart(bus: bv8, devfun: bv8, bus': bv8, devfun': bv8)
    ensures PciBdf(bus, devfun) == PciBdf(bus', devfun') <==> bus == bus' && devfun == devfun'
  {
  }

  function PageNumber(a: bv64): bv64 {
    a >> 12
  }

  function PageAddress(n: bv64): bv64 {
    n << 12
  }

  lemma PageNumberAddress(a: bv64)
    requires a & PAGE_OFFSET == 0
    ensures PageAddress(PageNumber(a)) == a
  {
  }

  // ---- Entries as software writes them ----

  function RootLo(tableHpa: bv64): bv64 {
    DmarSetBitslice(DmarSetBitslice(0, ROOT_ENTRY_LOWER_CTP_MASK, 12, PageNumber(tableHpa)), ROOT_ENTRY_LOWER_PRESENT_MASK, 0, 1)
  }

  function ContextHi(width: bv32, vmId: bv16): bv64 {
    DmarSetBitslice(DmarSetBitslice(0, CTX_ENTRY_UPPER_AW_MASK, 0, WidthToAw(width) as bv64),
                    CTX_ENTRY_UPPER_DID_MASK, 8, VmidToDomainid(vmId) as bv64)
  }

  function ContextLo(tablePtr: bv64): bv64 {
    var lo := DmarSetBitslice(0, CTX_ENTRY_LOWER_TT_MASK, 2, DMAR_CTX_TT_UNTRANSLATED);
    DmarSetBitslice(DmarSetBitslice(lo, CTX_ENTRY_LOWER_SLPTPTR_MASK, 12, PageNumber(tablePtr)), CTX_ENTRY_LOWER_P_MASK, 0, 1)
  }

  // ---- Entries as the hardware reads them (section 9 of the VT-d specification) ----

  /** Bit 0 of the lower half, in every kind of entry. */
  predicate Present(lo: bv64) {
    lo & 1 == 1
  }

  /** The page a root entry points to, and the page-table root a context entry points to. */
  function TablePointer(lo: bv64): bv64 {
    lo & 0xFFFF_FFFF_FFFF_F000
  }

  function TranslationType(lo: bv64): bv64 {
    (lo >> 2) & 3
  }

  function DomainOf(hi: bv64): bv16 {
    ((hi >> 8) & 0xFFFF) as bv16
  }

  function AddressWidth(hi: bv64): bv64 {
    hi & 7
  }

  lemma RootReadsBack(tableHpa: bv64)
    requires tableHpa & PAGE_OFFSET == 0
    ensures Present(RootLo(tableHpa)) && TablePointer(RootLo(tableHpa)) == tableHpa
  {
  }

  /** What software extracts from a root entry: its present bit and its page number. */
  function RootPresentBit(lo: bv64): bv64 {
    DmarGetBitslice(lo, ROOT_ENTRY_LOWER_PRESENT_MASK, 0)
  }

  function RootCtp(lo: bv64): bv64 {
    DmarGetBitslice(lo, ROOT_ENTRY_LOWER_CTP_MASK, 12)
  }

  /** The pointer software follows is the one the hardware follows. */
  lemma CtpIsTablePointer(lo: bv64)
    ensures PageAddress(RootCtp(lo)) == TablePointer(lo)
    ensures RootPresentBit(lo) == 0 <==> !Present(lo)
  {
  }

  /** A context entry reads back as what it was made of. */
  lemma ContextReadsBack(width: bv32, vmId: bv16, tablePtr: bv64)
    ensures DomainOf(ContextHi(width, vmId)) == VmidToDomainid(vmId)
    ensures AddressWidth(ContextHi(width, vmId)) == WidthToAw(width) as bv64 & 7
    ensures Present(ContextLo(tablePtr)) && TranslationType(ContextLo(tablePtr)) == DMAR_CTX_TT_UNTRANSLATED
    ensures TablePointer(ContextLo(tablePtr)) == tablePtr - (tablePtr & PAGE_OFFSET)
  {
    hide WidthToAw, VmidToDomainid;
  }

  lemma EmptyIsAbsent()
    ensures !Present(0)
  {
  }

  // ---- Interrupt remapping entries ----

  /** What dmar_assign_irte makes of the caller's entry: remapped mode, edge triggered, faults
      reported, present, for requests of one source only. */
  function EffectiveIrte(irte: DmarEntry, sid: bv16): DmarEntry {
    DmarEntry((irte.hi & !0xF_FFFF) | (1 << 18) | sid as bv64, (irte.lo & !0x8013) | 1)
  }

  /** The fields that assignment fixes and those it takes over: destination mode, redirection hint,
      delivery mode, software bits, vector and destination. */
  lemma EffectiveIrteFields(irte: DmarEntry, sid: bv16)
    ensures var e := EffectiveIrte(irte, sid);
            && Present(e.lo) && (e.lo >> 1) & 1 == 0 && (e.lo >> 4) & 1 == 0 && (e.lo >> 15) & 1 == 0
            && e.hi & 0xFFFF == sid as bv64 && (e.hi >> 16) & 3 == 0 && (e.hi >> 18) & 3 == 1
            && (e.lo >> 2) & 3 == (irte.lo >> 2) & 3 && (e.lo >> 5) & 0x7F == (irte.lo >> 5) & 0x7F
            && (e.lo >> 16) & 0xFF == (irte.lo >> 16) & 0xFF && e.lo >> 32 == irte.lo >> 32
  {
  }

  /** An entry with the present bit cleared. */
  function Cleared(lo: bv64): bv64 {
    lo & !1
  }

  lemma ClearedIsAbsent(lo: bv64)
    ensures !Present(Cleared(lo)) && Cleared(lo) >> 1 == lo >> 1
  {
  }

  // ---- Descriptors ----

  datatype Cirg = DMAR_CIRG_RESERVED | DMAR_CIRG_GLOBAL | DMAR_CIRG_DOMAIN | DMAR_CIRG_DEVICE
  datatype Iirg = DMAR_IIRG_RESERVED | DMAR_IIRG_GLOBAL | DMAR_IIRG_DOMAIN | DMAR_IIRG_PAGE

  const DMAR_INV_CONTEXT_CACHE_DESC: bv64 := 0x1
  const DMAR_INV_IOTLB_DESC: bv64 := 0x2
  const DMAR_INV_IEC_DESC: bv64 := 0x4
  const DMA_CONTEXT_GLOBAL_INVL: bv64 := 0x10
  const DMA_CONTEXT_DEVICE_INVL: bv64 := 0x30
  const DMA_IOTLB_GLOBAL_INVL: bv64 := 0x10
  const DMA_IOTLB_DOMAIN_INVL: bv64 := 0x20
  const DMA_IOTLB_DR: bv64 := 0x80
  const DMA_IOTLB_DW: bv64 := 0x40
  const DMAR_IECI_INDEXED: bv64 := 0x10
  const DMAR_IEC_GLOBAL_INVL: bv64 := 0
  /** A wait descriptor that stores 1, DMAR_INV_STATUS_COMPLETED, at the address in its upper half. */
  const DMAR_INV_WAIT_DESC_LOWER: bv64 := 0x1_0000_0025

  function ContextCacheLo(did: bv16, sid: bv16, fm: bv8, cirg: Cirg): bv64 {
    match cirg
    case DMAR_CIRG_GLOBAL => DMAR_INV_CONTEXT_CACHE_DESC | DMA_CONTEXT_GLOBAL_INVL
    case DMAR_CIRG_DEVICE =>
      DMAR_INV_CONTEXT_CACHE_DESC | DMA_CONTEXT_DEVICE_INVL | (did as bv64 << 16) | (sid as bv64 << 32) | ((fm as bv64 & 3) << 48)
    case _ => 0
  }

  function IotlbLo(did: bv16, iirg: Iirg): bv64 {
    var lo := DMA_IOTLB_DR | DMA_IOTLB_DW | DMAR_INV_IOTLB_DESC;
    match iirg
    case DMAR_IIRG_GLOBAL => lo | DMA_IOTLB_GLOBAL_INVL
    case DMAR_IIRG_DOMAIN => lo | DMA_IOTLB_DOMAIN_INVL | (did as bv64 << 16)
    case _ => 0
  }

  function IecLo(index: bv16, indexMask: bv8, isGlobal: bool): bv64 {
    if isGlobal then DMAR_INV_IEC_DESC | DMAR_IEC_GLOBAL_INVL
    else DMAR_INV_IEC_DESC | DMAR_IECI_INDEXED | (index as bv64 << 32) | ((indexMask as bv64 & 0x1F) << 27)
  }

  /** What a descriptor asks the hardware to do. */
  datatype Desc =
    | CtxGlobal
    | CtxDevice(did: bv16, sid: bv16, fm: bv64)
    | IotlbGlobal
    | IotlbDomain(did: bv16)
    | IecGlobal
    | IecIndex(index: bv16, mask: bv64)
    | Wait(statusHpa: bv64)
    | Invalid

  /** How the hardware reads a descriptor (section 6.5.2 of the VT-d specification). */
  function ReadDesc(d: DmarEntry): Desc {
    var kind, granularity := d.lo & 0xF, (d.lo >> 4) & 3;
    if kind == 1 && granularity == 1 then CtxGlobal
    else if kind == 1 && granularity == 3 then
      CtxDevice(((d.lo >> 16) & 0xFFFF) as bv16, ((d.lo >> 32) & 0xFFFF) as bv16, (d.lo >> 48) & 3)
    else if kind == 2 && granularity == 1 then IotlbGlobal
    else if kind == 2 && granularity == 2 then IotlbDomain(((d.lo >> 16) & 0xFFFF) as bv16)
    else if kind == 4 && granularity & 1 == 0 then IecGlobal
    else if kind == 4 then IecIndex(((d.lo >> 32) & 0xFFFF) as bv16, (d.lo >> 27) & 0x1F)
    else if kind == 5 && (d.lo >> 5) & 1 == 1 && d.lo >> 32 == 1 then Wait(d.hi)
    else Invalid
  }

  lemma ContextCacheReadsBack(did: bv16, sid: bv16, fm: bv8)
    ensures ReadDesc(DmarEntry(0, ContextCacheLo(did, sid, fm, DMAR_CIRG_GLOBAL))) == CtxGlobal
    ensures ReadDesc(DmarEntry(0, ContextCacheLo(did, sid, fm, DMAR_CIRG_DEVICE))) == CtxDevice(did, sid, fm as bv64 & 3)
  {
  }

  lemma IotlbReadsBack(did: bv16)
    ensures ReadDesc(DmarEntry(0, IotlbLo(did, DMAR_IIRG_GLOBAL))) == IotlbGlobal
    ensures ReadDesc(DmarEntry(0, IotlbLo(did, DMAR_IIRG_DOMAIN))) == IotlbDomain(did)
  {
  }

  lemma IecReadsBack(index: bv16, indexMask: bv8)
    ensures ReadDesc(DmarEntry(0, IecLo(index, indexMask, true))) == IecGlobal
    ensures ReadDesc(DmarEntry(0, IecLo(index, indexMask, false))) == IecIndex(index, indexMask as bv64 & 0x1F)
  {
  }

  lemma WaitReadsBack(statusHpa: bv64)
    ensures ReadDesc(DmarEntry(statusHpa, DMAR_INV_WAIT_DESC_LOWER)) == Wait(statusHpa)
  {
  }

  /** Only a known granularity makes a descriptor. */
  lemma DescriptorMade(did: bv16, sid: bv16, fm: bv8, cirg: Cirg, iirg: Iirg)
    ensures ContextCacheLo(did, sid, fm, cirg) != 0 <==> cirg == DMAR_CIRG_GLOBAL || cirg == DMAR_CIRG_DEVICE
    ensures IotlbLo(did, iirg) != 0 <==> iirg == DMAR_IIRG_GLOBAL || iirg == DMAR_IIRG_DOMAIN
  {
  }
}
