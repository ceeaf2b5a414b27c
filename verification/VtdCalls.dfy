/** The calls of vtd.c that change a remapping structure while the hardware uses it, as the memory
    accesses, cache-line flushes and invalidation requests they make, in that order. */
module VtdCalls {
  import opened VtdEntries

  /** An entry of the root table, of a context table or of the interrupt remapping table. */
  datatype Key = Root(bus: bv8) | Ctx(sid: bv16) | Irte(index: bv16)

  datatype Op = WriteHi(key: Key, hi: bv64) | WriteLo(key: Key, lo: bv64) | FlushLine(key: Key) | Issue(desc: Desc)

  datatype Call = Add(entry: DmarEntry) | Remove(did: bv16) | Assign(irte: DmarEntry) | Free(lo: bv64)

  /** Which entries a call may be about. */
  predicate Sensible(k: Key, c: Call) {
    match c
    case Add(e) => (k.Root? || k.Ctx?) && Present(e.lo)
    case Remove(_) => k.Ctx?
    case Assign(e) => k.Irte? && Present(e.lo)
    case Free(lo) => k.Irte? && !Present(lo)
  }

  function Program(k: Key, c: Call): seq<Op>
    requires Sensible(k, c)
  {
    match c
    case Add(e) => [WriteHi(k, e.hi), WriteLo(k, e.lo), FlushLine(k)]
    case Remove(did) =>
      [WriteLo(k, 0), WriteHi(k, 0), FlushLine(k), Issue(CtxDevice(did, k.sid, 0)), Issue(IotlbDomain(did))]
    case Assign(e) => [WriteHi(k, e.hi), WriteLo(k, e.lo), FlushLine(k), Issue(IecIndex(k.index, 0))]
    case Free(lo) => [WriteLo(k, lo), FlushLine(k), Issue(IecIndex(k.index, 0))]
  }

  // ---- Offsets into the invalidation queue ----

  const DMAR_QI_INV_ENTRY_SIZE: nat := 16
  const DMAR_INVALIDATION_QUEUE_SIZE: nat := 4096
  const DMAR_NUM_ENTRIES_PER_PAGE: nat := 256

  function Slot(offset: nat): nat {
    offset / DMAR_QI_INV_ENTRY_SIZE
  }

  function Next(offset: nat): nat {
    (offset + DMAR_QI_INV_ENTRY_SIZE) % DMAR_INVALIDATION_QUEUE_SIZE
  }

  /** Where the two descriptors of a request go. */
  predicate PairStart(offset: nat) {
    offset % (2 * DMAR_QI_INV_ENTRY_SIZE) == 0 && offset < DMAR_INVALIDATION_QUEUE_SIZE
  }

  lemma PairOfSlots(start: nat)
    requires PairStart(start)
    ensures Slot(Next(start)) == Slot(start) + 1 < DMAR_NUM_ENTRIES_PER_PAGE && Slot(start) % 2 == 0
    ensures start < Next(start) < DMAR_INVALIDATION_QUEUE_SIZE && PairStart(Next(Next(start)))
    ensures start != Next(Next(start)) && Next(start) != Next(Next(start))
  {
  }
}
