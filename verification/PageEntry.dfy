/** Paging-structure entries and the memory operations of their two users (pgtable.h, page.c).

    An entry is kept as its two fields: the physical address it holds and the set of its property
    bits, named by bit number. The lemmas on 64-bit words at the end show that this is what the
    masks of pgtable.h make of the words the hypervisor stores. */
module PageEntry {

  type Prot = set<nat>

  const PS_BIT: nat := 7

  const PAGE_PRESENT: Prot := {0}
  const PAGE_RW: Prot := {1}
  const PAGE_USER: Prot := {2}
  const PAGE_PS: Prot := {PS_BIT}
  const PAGE_NX: Prot := {63}
  const PAGE_CACHE_MASK: Prot := {3, 4}
  const PAGE_CACHE_WB: Prot := {}
  const PAGE_CACHE_UC: Prot := {3, 4}
  const EPT_RD: Prot := {0}
  const EPT_WR: Prot := {1}
  const EPT_EXE: Prot := {2}
  const EPT_RWX: Prot := {0, 1, 2}
  const EPT_MT_MASK: Prot := {3, 4, 5}
  const EPT_UNCACHED: Prot := {}
  const EPT_SNOOP_CTRL: Prot := {11}

  /** Physical addresses have MAXPHYADDR = 39 bits. */
  const PADDR_LIMIT: nat := 0x80_0000_0000

  /** paddr is a 4-KByte aligned physical address, prot the property bits. */
  datatype Entry = Entry(paddr: nat, prot: Prot)

  /** The part of struct memory_ops that decides anything: which bits make an entry present,
      the rights of an entry that references a table, whether large pages may be used, whether
      the execute-right callbacks are the EPT ones (otherwise they do nothing), and whether
      there is a get_pt_page callback. */
  datatype MemOps = MemOps(
    presentMask: Prot, defaultRight: Prot, largePageEnabled: bool, mitigated: bool, hasPtPage: bool)

  const PPT_MEM_OPS := MemOps(PAGE_PRESENT, PAGE_PRESENT + PAGE_RW + PAGE_USER, true, false, false)

  function InitEptMemOps(force4kIpage: bool, enforce4kIpage: bool): MemOps {
    MemOps(EPT_RWX, EPT_RWX, !(force4kIpage && enforce4kIpage), force4kIpage, true)
  }

  /** What the engine relies on; both users of the engine meet it (BothUsersSupported). */
  predicate Supported(ops: MemOps) {
    && 0 in ops.presentMask && PS_BIT !in ops.presentMask
    && ops.defaultRight == EPT_RWX
  }

  lemma BothUsersSupported(force4kIpage: bool, enforce4kIpage: bool)
    ensures Supported(PPT_MEM_OPS)
    ensures Supported(InitEptMemOps(force4kIpage, enforce4kIpage))
    ensures PPT_MEM_OPS.largePageEnabled && !PPT_MEM_OPS.mitigated && !PPT_MEM_OPS.hasPtPage
    ensures var ops := InitEptMemOps(force4kIpage, enforce4kIpage);
            && ops.hasPtPage && (ops.mitigated <==> force4kIpage)
            && (!ops.largePageEnabled <==> force4kIpage && enforce4kIpage)
            && (forall bit: nat :: bit in ops.presentMask <==> bit < 3)
  {
  }

  predicate Present(ops: MemOps, e: Entry) {
    e.prot * ops.presentMask != {}
  }

  predicate Large(e: Entry) {
    PS_BIT in e.prot
  }

  function TweakExeRight(ops: MemOps, prot: Prot): Prot {
    if ops.mitigated then prot - EPT_EXE else prot
  }

  function RecoverExeRight(ops: MemOps, prot: Prot): Prot {
    if ops.mitigated then prot + EPT_EXE else prot
  }

  /** The bits a mapping does not promise: the page-size bit, and under the EPT execute-right
      callbacks the execute bit, which those callbacks move. */
  function Hidden(ops: MemOps): Prot {
    if ops.mitigated then PAGE_PS + EPT_EXE else PAGE_PS
  }

  function Visible(ops: MemOps, prot: Prot): Prot {
    prot - Hidden(ops)
  }

  predicate VisiblyPresent(ops: MemOps, prot: Prot) {
    Visible(ops, prot) * ops.presentMask != {}
  }

  function Modified(prot: Prot, set_: Prot, clr: Prot): Prot {
    (prot - clr) + set_
  }

  lemma VisibleOfCallbacks(ops: MemOps, prot: Prot)
    ensures Visible(ops, prot + PAGE_PS) == Visible(ops, prot)
    ensures Visible(ops, prot - PAGE_PS) == Visible(ops, prot)
    ensures Visible(ops, TweakExeRight(ops, prot)) == Visible(ops, prot)
    ensures Visible(ops, RecoverExeRight(ops, prot)) == Visible(ops, prot)
    ensures Visible(ops, Visible(ops, prot)) == Visible(ops, prot)
  {
  }

  lemma VisibleOfModified(ops: MemOps, prot: Prot, set_: Prot, clr: Prot)
    ensures Visible(ops, Modified(prot, set_, clr)) == Visible(ops, Modified(Visible(ops, prot), set_, clr))
  {
  }

  lemma VisiblyPresentIsPresent(ops: MemOps, e: Entry)
    requires VisiblyPresent(ops, e.prot)
    ensures Present(ops, e)
  {
    var bit :| bit in Visible(ops, e.prot) * ops.presentMask;
    assert bit in e.prot * ops.presentMask;
  }

  lemma DefaultRightIsPresent(ops: MemOps, paddr: nat)
    requires Supported(ops)
    ensures Present(ops, Entry(paddr, ops.defaultRight)) && !Large(Entry(paddr, ops.defaultRight))
  {
    assert 0 in ops.defaultRight * ops.presentMask;
  }

  // ---- 64-bit words ----

  const PFN_MASK: bv64 := 0x7F_FFFF_F000
  const PDPTE_PADDR_MASK: bv64 := 0x7F_C000_0000
  const PDE_PADDR_MASK: bv64 := 0x7F_FFE0_0000
  const PROT_MASK: bv64 := 0xF800_0000_0000_0FFF

  predicate IsFrame(paddr: bv64) { paddr & !PFN_MASK == 0 }

  predicate IsProt(prot: bv64) { prot & !PROT_MASK == 0 }

  /** The word paddr | prot gives both fields back through the masks of pgtable.h; the masks of
      large pages read the same address from an aligned one. */
  lemma StoredWord(paddr: bv64, prot: bv64)
    requires IsFrame(paddr) && IsProt(prot)
    ensures (paddr | prot) & PFN_MASK == paddr
    ensures (paddr | prot) & PROT_MASK == prot
    ensures paddr & 0x3FFF_FFFF == 0 ==> (paddr | prot) & PDPTE_PADDR_MASK == paddr
    ensures paddr & 0x1F_FFFF == 0 ==> (paddr | prot) & PDE_PADDR_MASK == paddr
  {
  }

  /** Clearing and then setting property bits in a word leaves its address field alone, and the
      present and page-size tests on a word look at its property field only. */
  lemma ModifiedWord(w: bv64, set_: bv64, clr: bv64)
    requires IsProt(set_) && IsProt(clr)
    ensures ((w & !clr) | set_) & PFN_MASK == w & PFN_MASK
    ensures ((w & !clr) | set_) & PROT_MASK == ((w & PROT_MASK) & !clr) | set_
    ensures w & 0x1 == (w & PROT_MASK) & 0x1
    ensures w & 0x7 == (w & PROT_MASK) & 0x7
    ensures w & 0x80 == (w & PROT_MASK) & 0x80
  {
  }
}
