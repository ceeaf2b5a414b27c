/** Four-level paging structures as values: what a set of tables means, when it is well formed,
    and what it takes for a step on one entry to carry out part of a request.

    The tables of one level are a contiguous static array, and the table for an address is the
    array slot picked by that address (page.c). Entry i of level L therefore controls the i-th
    block of Span(L) bytes of the input address space. */
module Paging {
  import opened PageEntry
  import opened Wrappers

  const PAGE_SIZE: nat := 0x1000
  const PTRS_PER_TABLE: nat := 512
  const PTE_SIZE: nat := 0x1000
  const PDE_SIZE: nat := 0x20_0000
  const PDPTE_SIZE: nat := 0x4000_0000
  const PML4E_SIZE: nat := 0x80_0000_0000

  const IA32E_PML4: nat := 0
  const IA32E_PDPT: nat := 1
  const IA32E_PD: nat := 2
  const IA32E_PT: nat := 3

  type Level = level: nat | level <= 3

  type Tables = t: seq<seq<Entry>> | |t| == 4 witness [[], [], [], []]

  /** The user of the engine: its memory operations, the physical addresses of its table arrays and
      of the sanitized page, and the size of the address space its arrays cover. noExecLarge asks
      for the stronger invariant that no large page is executable. */
  datatype Config = Config(
    ops: MemOps, pdptBase: nat, pdBase: nat, ptBase: nat, sanitized: nat, space: nat, noExecLarge: bool)

  /** What an input address maps to. */
  datatype Mapping = Mapping(paddr: nat, prot: Prot)

  // ---- Blocks of the address space ----

  function Span(level: Level): nat {
    match level
    case 0 => PML4E_SIZE
    case 1 => PDPTE_SIZE
    case 2 => PDE_SIZE
    case 3 => PTE_SIZE
  }

  /** First address of block i of a level. */
  function Start(level: Level, i: nat): nat {
    match level
    case 0 => i * PML4E_SIZE
    case 1 => i * PDPTE_SIZE
    case 2 => i * PDE_SIZE
    case 3 => i * PTE_SIZE
  }

  /** The block of a level that holds an address. */
  function Index(level: Level, a: nat): nat {
    match level
    case 0 => a / PML4E_SIZE
    case 1 => a / PDPTE_SIZE
    case 2 => a / PDE_SIZE
    case 3 => a / PTE_SIZE
  }

  predicate Aligned(level: Level, x: nat) {
    match level
    case 0 => x % PML4E_SIZE == 0
    case 1 => x % PDPTE_SIZE == 0
    case 2 => x % PDE_SIZE == 0
    case 3 => x % PTE_SIZE == 0
  }

  function Offset(level: Level, a: nat): (off: nat)
    ensures off < Span(level)
  {
    match level
    case 0 => a % PML4E_SIZE
    case 1 => a % PDPTE_SIZE
    case 2 => a % PDE_SIZE
    case 3 => a % PTE_SIZE
  }

  lemma BlockOf(level: Level, a: nat, i: nat)
    ensures Start(level, i) <= a < Start(level, i + 1) <==> Index(level, a) == i
    ensures a == Start(level, Index(level, a)) + Offset(level, a)
    ensures Start(level, i + 1) == Start(level, i) + Span(level)
  {
  }

  lemma ChildBlocks(level: Level, i: nat)
    requires level < 3
    ensures Start(level, i) == Start(level + 1, PTRS_PER_TABLE * i)
    ensures Start(level, i + 1) == Start(level + 1, PTRS_PER_TABLE * i + PTRS_PER_TABLE)
  {
  }

  lemma StartMonotone(level: Level, i: nat, j: nat)
    requires i <= j
    ensures Start(level, i) <= Start(level, j)
  {
  }

  lemma ChildIndex(level: Level, a: nat)
    requires level < 3
    ensures Index(level, a) == Index(level + 1, a) / PTRS_PER_TABLE
    ensures PTRS_PER_TABLE * Index(level, a) <= Index(level + 1, a) < PTRS_PER_TABLE * Index(level, a) + PTRS_PER_TABLE
  {
  }

  // ---- Entries ----

  function Base(c: Config, level: Level): nat {
    match level
    case 0 => 0
    case 1 => c.pdptBase
    case 2 => c.pdBase
    case 3 => c.ptBase
  }

  function Sanitized(c: Config): Entry {
    Entry(c.sanitized, {})
  }

  /** The entry of a level that references slot p of the next level. */
  function TableEntry(c: Config, level: Level, p: nat): Entry
    requires level < 3
  {
    Entry(Base(c, level + 1) + p * PAGE_SIZE, c.ops.defaultRight)
  }

  /** A present entry maps a page rather than referencing a table. PML4 entries never do. */
  predicate MapsPage(level: Level, e: Entry) {
    level == IA32E_PT || (IA32E_PML4 < level && Large(e))
  }

  predicate ReferencesTable(c: Config, level: Level, e: Entry) {
    Present(c.ops, e) && !MapsPage(level, e)
  }

  ghost predicate LeafOk(c: Config, level: Level, i: nat, e: Entry) {
    && Aligned(level, e.paddr)
    && e.paddr + Span(level) <= PADDR_LIMIT
    && VisiblyPresent(c.ops, e.prot)
    && Start(level, i + 1) <= c.space
    && (c.noExecLarge && level < IA32E_PT ==> EPT_EXE !! e.prot)
  }

  /** Entry i of a level, with everything below it. An absent entry holds the sanitized page's
      address; a table is in the slot of its address; without get_pt_page there are no page tables. */
  ghost predicate Ok(c: Config, t: Tables, level: Level, i: nat)
    decreases 3 - level, 0
  {
    && i < |t[level]|
    && var e := t[level][i];
       if !Present(c.ops, e) then
         level == IA32E_PML4 || e == Sanitized(c)
       else if MapsPage(level, e) then
         LeafOk(c, level, i, e)
       else
         && e == TableEntry(c, level, i)
         && (level == IA32E_PD ==> c.ops.hasPtPage)
         && PTRS_PER_TABLE * i + PTRS_PER_TABLE <= |t[level + 1]|
         && TableOk(c, t, level + 1, i)
  }

  ghost predicate AllOk(c: Config, t: Tables, level: Level, b0: nat, b1: nat)
    decreases 3 - level, 1
  {
    forall j :: b0 <= j < b1 ==> Ok(c, t, level, j)
  }

  /** The entries of the table in a slot. */
  ghost predicate TableOk(c: Config, t: Tables, level: Level, page: nat)
    decreases 3 - level, 2
  {
    AllOk(c, t, level, PTRS_PER_TABLE * page, PTRS_PER_TABLE * page + PTRS_PER_TABLE)
  }

  function PagesFor(space: nat, size: nat): nat
    requires size > 0
  {
    (space + size - 1) / size
  }

  ghost predicate ConfigOk(c: Config) {
    && Supported(c.ops)
    && (c.noExecLarge ==> c.ops.mitigated)
    && c.space <= PTRS_PER_TABLE * PML4E_SIZE
    && c.pdptBase + PAGE_SIZE * PagesFor(c.space, PML4E_SIZE) <= PADDR_LIMIT
    && c.pdBase + PAGE_SIZE * PagesFor(c.space, PDPTE_SIZE) <= PADDR_LIMIT
    && c.ptBase + PAGE_SIZE * PagesFor(c.space, PDE_SIZE) <= PADDR_LIMIT
  }

  /** The arrays have the sizes page.c gives them. */
  ghost predicate Sized(c: Config, t: Tables) {
    && |t[0]| == PTRS_PER_TABLE
    && |t[1]| == PTRS_PER_TABLE * PagesFor(c.space, PML4E_SIZE)
    && |t[2]| == PTRS_PER_TABLE * PagesFor(c.space, PDPTE_SIZE)
    && |t[3]| == if c.ops.hasPtPage then PTRS_PER_TABLE * PagesFor(c.space, PDE_SIZE) else 0
  }

  ghost predicate WellFormed(c: Config, t: Tables) {
    ConfigOk(c) && Sized(c, t) && AllOk(c, t, IA32E_PML4, 0, PTRS_PER_TABLE)
  }

  // ---- Meaning ----

  /** The translation of an address as the processor performs it: from a table at a level, pick the
      entry by the address, follow the physical address it holds. */
  ghost function Walk(c: Config, t: Tables, level: Level, page: nat, a: nat): Option<Mapping>
    decreases 3 - level
  {
    var k := PTRS_PER_TABLE * page + Index(level, a) % PTRS_PER_TABLE;
    if k >= |t[level]| then None
    else
      var e := t[level][k];
      if !Present(c.ops, e) then None
      else if MapsPage(level, e) then Some(Mapping(e.paddr + Offset(level, a), Visible(c.ops, e.prot)))
      else if e.paddr < Base(c, level + 1) then None
      else Walk(c, t, level + 1, (e.paddr - Base(c, level + 1)) / PAGE_SIZE, a)
  }

  ghost function Translate(c: Config, t: Tables, a: nat): Option<Mapping> {
    Walk(c, t, IA32E_PML4, 0, a)
  }

  /** The same translation read off the slots the address picks. */
  ghost function Map(c: Config, t: Tables, level: Level, a: nat): Option<Mapping>
    decreases 3 - level
  {
    var i := Index(level, a);
    if i >= |t[level]| then None
    else
      var e := t[level][i];
      if !Present(c.ops, e) then None
      else if MapsPage(level, e) then Some(Mapping(e.paddr + Offset(level, a), Visible(c.ops, e.prot)))
      else Map(c, t, level + 1, a)
  }

  lemma SlotIndex(page: nat, i: nat)
    requires PTRS_PER_TABLE * page <= i < PTRS_PER_TABLE * page + PTRS_PER_TABLE
    ensures PTRS_PER_TABLE * page + i % PTRS_PER_TABLE == i
  {
  }

  lemma SlotPage(base: nat, i: nat)
    ensures ((base + i * PAGE_SIZE) - base) / PAGE_SIZE == i
  {
  }

  lemma {:induction false} WalkIsMap(c: Config, t: Tables, level: Level, page: nat, a: nat)
    requires TableOk(c, t, level, page)
    requires PTRS_PER_TABLE * page <= Index(level, a) < PTRS_PER_TABLE * page + PTRS_PER_TABLE
    ensures Walk(c, t, level, page, a) == Map(c, t, level, a)
    decreases 3 - level
  {
    var i := Index(level, a);
    SlotIndex(page, i);
    assert Ok(c, t, level, i);
    var e := t[level][i];
    if Present(c.ops, e) && !MapsPage(level, e) {
      WalkThroughTable(c, t, level, page, a);
      ChildIndex(level, a);
      WalkIsMap(c, t, level + 1, i, a);
    }
  }

  lemma WalkThroughTable(c: Config, t: Tables, level: Level, page: nat, a: nat)
    requires PTRS_PER_TABLE * page <= Index(level, a) < PTRS_PER_TABLE * page + PTRS_PER_TABLE
    requires Ok(c, t, level, Index(level, a)) && ReferencesTable(c, level, t[level][Index(level, a)])
    ensures Walk(c, t, level, page, a) == Walk(c, t, level + 1, Index(level, a), a)
    ensures Map(c, t, level, a) == Map(c, t, level + 1, a)
  {
    SlotIndex(page, Index(level, a));
    SlotPage(Base(c, level + 1), Index(level, a));
  }

  /** In a well-formed set of tables the walk goes through the slots of its address. */
  lemma TranslateIsMap(c: Config, t: Tables, a: nat)
    requires WellFormed(c, t) && a < PTRS_PER_TABLE * PML4E_SIZE
    ensures Translate(c, t, a) == Map(c, t, IA32E_PML4, a)
  {
    WalkIsMap(c, t, IA32E_PML4, 0, a);
  }

  // ---- Frames ----

  /** Only entries of blocks that start in [lo, hi) differ. */
  ghost predicate SameOutside(t: Tables, t': Tables, lo: nat, hi: nat) {
    && (forall level: Level :: |t'[level]| == |t[level]|)
    && (forall level: Level, i: nat :: i < |t[level]| && !(lo <= Start(level, i) < hi) ==> t'[level][i] == t[level][i])
  }

  lemma {:induction false} OkFrame(c: Config, t: Tables, t': Tables, level: Level, i: nat, lo: nat, hi: nat)
    requires SameOutside(t, t', lo, hi)
    requires Start(level, i + 1) <= lo || hi <= Start(level, i)
    requires Ok(c, t, level, i)
    ensures Ok(c, t', level, i)
    decreases 3 - level
  {
    BlockOf(level, Start(level, i), i);
    assert t'[level][i] == t[level][i];
    var e := t[level][i];
    if Present(c.ops, e) && !MapsPage(level, e) {
      var child: Level := level + 1;
      ChildBlocks(level, i);
      forall j | PTRS_PER_TABLE * i <= j < PTRS_PER_TABLE * i + PTRS_PER_TABLE
        ensures Ok(c, t', child, j)
      {
        StartMonotone(child, PTRS_PER_TABLE * i, j);
        StartMonotone(child, j + 1, PTRS_PER_TABLE * i + PTRS_PER_TABLE);
        OkFrame(c, t, t', child, j, lo, hi);
      }
    }
  }

  lemma {:induction false} MapFrame(c: Config, t: Tables, t': Tables, level: Level, a: nat, lo: nat, hi: nat)
    requires SameOutside(t, t', lo, hi)
    requires Start(level, Index(level, a) + 1) <= lo || hi <= Start(level, Index(level, a))
    ensures Map(c, t', level, a) == Map(c, t, level, a)
    decreases 3 - level
  {
    var i := Index(level, a);
    BlockOf(level, a, i);
    if i < |t[level]| {
      assert t'[level][i] == t[level][i];
      if level < 3 {
        ChildIndex(level, a);
        ChildBlocks(level, i);
        StartMonotone(level + 1, PTRS_PER_TABLE * i, Index(level + 1, a));
        StartMonotone(level + 1, Index(level + 1, a) + 1, PTRS_PER_TABLE * i + PTRS_PER_TABLE);
        MapFrame(c, t, t', level + 1, a, lo, hi);
      }
    }
  }

  // ---- Requests ----

  /** What a caller asks for on a range of addresses. */
  datatype Request =
    | Establish(vbase: nat, pbase: nat, prot: Prot)
    | Modify(set_: Prot, clr: Prot)
    | Delete

  /** The meaning of a request for one address of its range. */
  function Apply(c: Config, req: Request, a: nat, m: Option<Mapping>): Option<Mapping> {
    match req
    case Establish(vbase, pbase, prot) =>
      if a < vbase then None else Some(Mapping(pbase + (a - vbase), Visible(c.ops, prot)))
    case Modify(set_, clr) =>
      if m.None? then None else Some(Mapping(m.value.paddr, Visible(c.ops, Modified(m.value.prot, set_, clr))))
    case Delete => None
  }

  /** What the request assumes of the mapping it finds at an address. */
  predicate Admissible(c: Config, req: Request, m: Option<Mapping>) {
    match req
    case Establish(_, _, _) => m.None?
    case Modify(set_, clr) => m.Some? ==> VisiblyPresent(c.ops, Modified(m.value.prot, set_, clr))
    case Delete => true
  }

  ghost predicate CoversWholePde(v0: nat, v1: nat) {
    exists k: nat :: v0 <= Start(IA32E_PD, k) && Start(IA32E_PD, k + 1) <= v1
  }

  /** What the request assumes of its range. Without get_pt_page everything is 2-MByte aligned. */
  ghost predicate Allowed(c: Config, req: Request, v0: nat, v1: nat) {
    && v0 % PTE_SIZE == 0 && v1 % PTE_SIZE == 0
    && (c.ops.hasPtPage || (v0 % PDE_SIZE == 0 && v1 % PDE_SIZE == 0))
    && match req
       case Establish(vbase, pbase, prot) =>
         && vbase <= v0 && v1 <= c.space
         && vbase % PTE_SIZE == 0 && pbase % PTE_SIZE == 0
         && pbase + (v1 - vbase) <= PADDR_LIMIT
         && VisiblyPresent(c.ops, prot)
         && (c.ops.hasPtPage
             || (c.ops.largePageEnabled && vbase % PDE_SIZE == 0 && pbase % PDE_SIZE == 0))
       case Modify(set_, clr) =>
         && PAGE_PS !! clr - set_
         && (c.noExecLarge ==> EPT_EXE !! set_ || !CoversWholePde(v0, v1))
       case Delete => true
  }

  /** Blocks [b0, b1) of a level carry out the request on addresses [v0, v1): every mapping there is
      what the request makes of the old one, every other mapping of these blocks is as before, the
      blocks are well formed, and no other block is touched. */
  ghost predicate Updated(c: Config, t: Tables, t': Tables, level: Level, b0: nat, b1: nat,
                          v0: nat, v1: nat, req: Request) {
    && SameOutside(t, t', Start(level, b0), Start(level, b1))
    && AllOk(c, t', level, b0, b1)
    && forall a :: Start(level, b0) <= a < Start(level, b1) ==>
         Map(c, t', level, a)
         == if v0 <= a < v1 then Apply(c, req, a, Map(c, t, level, a)) else Map(c, t, level, a)
  }

  lemma UpdatedNothing(c: Config, t: Tables, level: Level, b0: nat, b1: nat, v: nat, req: Request)
    requires AllOk(c, t, level, b0, b1)
    ensures forall w: nat :: w <= v ==> Updated(c, t, t, level, b0, b1, v, w, req)
  {
  }

  lemma UpdatedStepOk(c: Config, t1: Tables, t2: Tables, level: Level, b0: nat, b1: nat, b: nat)
    requires AllOk(c, t1, level, b0, b1) && Ok(c, t2, level, b)
    requires SameOutside(t1, t2, Start(level, b), Start(level, b + 1))
    ensures AllOk(c, t2, level, b0, b1)
  {
    forall j | b0 <= j < b1
      ensures Ok(c, t2, level, j)
    {
      if j < b {
        StartMonotone(level, j + 1, b);
        OkFrame(c, t1, t2, level, j, Start(level, b), Start(level, b + 1));
      } else if b < j {
        StartMonotone(level, b + 1, j);
        OkFrame(c, t1, t2, level, j, Start(level, b), Start(level, b + 1));
      }
    }
  }

  lemma OtherBlock(c: Config, t1: Tables, t2: Tables, level: Level, b: nat, a: nat)
    requires SameOutside(t1, t2, Start(level, b), Start(level, b + 1))
    requires !(Start(level, b) <= a < Start(level, b + 1))
    ensures Map(c, t2, level, a) == Map(c, t1, level, a)
  {
    var i := Index(level, a);
    BlockOf(level, a, b);
    if i < b {
      StartMonotone(level, i + 1, b);
    } else {
      StartMonotone(level, b + 1, i);
    }
    MapFrame(c, t1, t2, level, a, Start(level, b), Start(level, b + 1));
  }

  /** A step on block b takes the work from v to w. */
  lemma UpdatedStep(c: Config, t: Tables, t1: Tables, t2: Tables, level: Level, b0: nat, b1: nat, b: nat,
                    v0: nat, v: nat, w: nat, req: Request)
    requires Updated(c, t, t1, level, b0, b1, v0, v, req)
    requires b0 <= b < b1
    requires v0 <= v <= w && Start(level, b) <= v && w <= Start(level, b + 1)
    requires Updated(c, t1, t2, level, b, b + 1, v, w, req)
    ensures Updated(c, t, t2, level, b0, b1, v0, w, req)
  {
    StartMonotone(level, b0, b);
    StartMonotone(level, b + 1, b1);
    assert Ok(c, t2, level, b);
    UpdatedStepOk(c, t1, t2, level, b0, b1, b);
    forall a | Start(level, b0) <= a < Start(level, b1)
      ensures Map(c, t2, level, a)
           == if v0 <= a < w then Apply(c, req, a, Map(c, t, level, a)) else Map(c, t, level, a)
    {
      if !(Start(level, b) <= a < Start(level, b + 1)) {
        OtherBlock(c, t1, t2, level, b, a);
      }
    }
    assert SameOutside(t, t2, Start(level, b0), Start(level, b1));
  }

  /** Work done in the table an entry references is work done on the entry's block. */
  lemma UpdatedThroughTable(c: Config, t: Tables, t': Tables, level: Level, b: nat, v0: nat, v1: nat, req: Request)
    requires level < 3
    requires Ok(c, t, level, b) && ReferencesTable(c, level, t[level][b])
    requires Updated(c, t, t', level + 1, PTRS_PER_TABLE * b, PTRS_PER_TABLE * b + PTRS_PER_TABLE, v0, v1, req)
    requires t'[level] == t[level]
    ensures Updated(c, t, t', level, b, b + 1, v0, v1, req)
  {
    ChildBlocks(level, b);
    forall a | Start(level, b) <= a < Start(level, b + 1)
      ensures Map(c, t', level, a) == Map(c, t', level + 1, a)
      ensures Map(c, t, level, a) == Map(c, t, level + 1, a)
    {
      BlockOf(level, a, b);
    }
  }
}
