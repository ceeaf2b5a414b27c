/** The part of a request that one table works through: what holds of the addresses still to do at
    the head of each loop of the engine, and why the next block may be handed down. */
module PagingRanges {
  import opened PageEntry
  import opened Paging
  import opened Wrappers
  import opened PagingSteps

  /** A table may work on [v0, v1): its entries are well formed, the range lies in its blocks, and
      the request is allowed there. */
  ghost predicate Ready(c: Config, t: Tables, level: Level, page: nat, v0: nat, v1: nat, req: Request) {
    && ConfigOk(c) && Sized(c, t)
    && TableOk(c, t, level, page)
    && Start(level, PTRS_PER_TABLE * page) <= v0 < v1 <= Start(level, PTRS_PER_TABLE * page + PTRS_PER_TABLE)
    && Allowed(c, req, v0, v1)
    && forall a :: v0 <= a < v1 ==> Admissible(c, req, Map(c, t, level, a))
  }

  function Min(x: nat, y: nat): nat {
    if x < y then x else y
  }

  /** Where the work on the block of v ends. */
  function BlockEnd(level: Level, v: nat, v1: nat): nat {
    Min(Start(level, Index(level, v) + 1), v1)
  }

  lemma AllowedPart(c: Config, req: Request, v0: nat, v1: nat, w0: nat, w1: nat)
    requires Allowed(c, req, v0, v1)
    requires v0 <= w0 <= w1 <= v1
    requires w0 % PTE_SIZE == 0 && w1 % PTE_SIZE == 0
    requires c.ops.hasPtPage || (w0 % PDE_SIZE == 0 && w1 % PDE_SIZE == 0)
    ensures Allowed(c, req, w0, w1)
  {
    if CoversWholePde(w0, w1) {
      var k: nat :| w0 <= Start(IA32E_PD, k) && Start(IA32E_PD, k + 1) <= w1;
      assert v0 <= Start(IA32E_PD, k) && Start(IA32E_PD, k + 1) <= v1;
    }
  }

  /** There is no page table without get_pt_page. */
  lemma PtNeedsPtPage(c: Config, t: Tables, page: nat)
    requires Sized(c, t) && TableOk(c, t, IA32E_PT, page)
    ensures c.ops.hasPtPage
  {
    assert Ok(c, t, IA32E_PT, PTRS_PER_TABLE * page);
  }

  lemma BlockEnds(level: Level, b: nat)
    ensures Start(level, b) % PTE_SIZE == 0
    ensures level < 3 ==> Start(level, b) % PDE_SIZE == 0
  {
    PteMultiple(b);
    PteMultiple(512 * b);
    PteMultiple(262144 * b);
    PteMultiple(134217728 * b);
    PdeMultiple(b);
    PdeMultiple(512 * b);
    PdeMultiple(262144 * b);
  }

  lemma PteMultiple(k: nat)
    ensures (k * PTE_SIZE) % PTE_SIZE == 0
  {
  }

  lemma PdeMultiple(k: nat)
    ensures (k * PDE_SIZE) % PDE_SIZE == 0
  {
  }

  /** The block of the next address to do belongs to the table, and so does the one after it
      unless the range ends first. */
  lemma NextBlock(level: Level, page: nat, v: nat, v1: nat)
    requires Start(level, PTRS_PER_TABLE * page) <= v < v1 <= Start(level, PTRS_PER_TABLE * page + PTRS_PER_TABLE)
    ensures var b := Index(level, v);
            && PTRS_PER_TABLE * page <= b < PTRS_PER_TABLE * page + PTRS_PER_TABLE
            && Start(level, b) <= v < Start(level, b + 1)
            && Start(level, b + 1) <= Start(level, PTRS_PER_TABLE * page + PTRS_PER_TABLE)
            && (Start(level, b + 1) < v1 ==> b + 1 < PTRS_PER_TABLE * page + PTRS_PER_TABLE)
            && Index(level, Start(level, b + 1)) == b + 1
  {
    var b := Index(level, v);
    BlockOf(level, v, b);
    IndexBetween(level, PTRS_PER_TABLE * page, PTRS_PER_TABLE * page + PTRS_PER_TABLE, v);
    StartMonotone(level, b + 1, PTRS_PER_TABLE * page + PTRS_PER_TABLE);
    BlockOf(level, Start(level, b + 1), b + 1);
    BlockOf(level, Start(level, b + 1), b + 2);
  }

  lemma IndexBetween(level: Level, lo: nat, hi: nat, v: nat)
    requires Start(level, lo) <= v < Start(level, hi)
    ensures lo <= Index(level, v) < hi
  {
  }

  /** Where the next block lies. */
  lemma BlockBounds(c: Config, t: Tables, level: Level, page: nat, v: nat, v1: nat, req: Request)
    requires Ready(c, t, level, page, v, v1, req)
    ensures var b := Index(level, v);
            var w := BlockEnd(level, v, v1);
            && PTRS_PER_TABLE * page <= b < PTRS_PER_TABLE * page + PTRS_PER_TABLE
            && Start(level, b) <= v < w <= Start(level, b + 1)
            && w <= v1
            && (w < v1 ==> w == Start(level, b + 1) && Index(level, w) == b + 1
                           && b + 1 < PTRS_PER_TABLE * page + PTRS_PER_TABLE)
  {
    NextBlock(level, page, v, v1);
  }

  lemma AlignedStart(level: Level, v: nat)
    requires Aligned(level, v)
    ensures v == Start(level, Index(level, v))
  {
  }

  lemma UpdatedSized(c: Config, t: Tables, t': Tables, level: Level, b0: nat, b1: nat, v0: nat, v1: nat, req: Request)
    requires Sized(c, t) && Updated(c, t, t', level, b0, b1, v0, v1, req)
    ensures Sized(c, t')
  {
    hide Ok, Map;
    assert |t'[0]| == |t[0]| && |t'[1]| == |t[1]| && |t'[2]| == |t[2]| && |t'[3]| == |t[3]|;
  }

  /** After a step on its block, the rest of the range is still ready. */
  lemma RestReady(c: Config, t1: Tables, t2: Tables, level: Level, page: nat, v: nat, w: nat, v1: nat, req: Request)
    requires Ready(c, t1, level, page, v, v1, req)
    requires w == v || w == Start(level, Index(level, v) + 1)
    requires w < v1
    requires Updated(c, t1, t2, level, Index(level, v), Index(level, v) + 1, v, w, req)
    ensures Ready(c, t2, level, page, w, v1, req)
  {
    hide Ok, Map, Updated, Allowed;
    var b := Index(level, v);
    BlockBounds(c, t1, level, page, v, v1, req);
    RestAllowed(c, t1, level, page, v, w, v1, req);
    RestTable(c, t1, t2, level, page, b, v, w, req);
    RestAdmissible(c, t1, t2, level, b, v, w, v1, req);
  }

  lemma RestAllowed(c: Config, t: Tables, level: Level, page: nat, v: nat, w: nat, v1: nat, req: Request)
    requires Ready(c, t, level, page, v, v1, req)
    requires w == v || w == Start(level, Index(level, v) + 1)
    requires v <= w < v1
    ensures Allowed(c, req, w, v1)
  {
    hide Ok, Map;
    BlockEnds(level, Index(level, v) + 1);
    if level == 3 {
      PtNeedsPtPage(c, t, page);
    }
    AllowedPart(c, req, v, v1, w, v1);
  }

  lemma RestTable(c: Config, t1: Tables, t2: Tables, level: Level, page: nat, b: nat, v: nat, w: nat, req: Request)
    requires Sized(c, t1) && TableOk(c, t1, level, page)
    requires PTRS_PER_TABLE * page <= b < PTRS_PER_TABLE * page + PTRS_PER_TABLE
    requires Updated(c, t1, t2, level, b, b + 1, v, w, req)
    ensures Sized(c, t2) && TableOk(c, t2, level, page)
  {
    UpdatedSized(c, t1, t2, level, b, b + 1, v, w, req);
    assert Ok(c, t2, level, b);
    UpdatedStepOk(c, t1, t2, level, PTRS_PER_TABLE * page, PTRS_PER_TABLE * page + PTRS_PER_TABLE, b);
  }

  lemma RestAdmissible(c: Config, t1: Tables, t2: Tables, level: Level, b: nat, v: nat, w: nat, v1: nat, req: Request)
    requires Updated(c, t1, t2, level, b, b + 1, v, w, req)
    requires v <= w <= v1
    requires forall a :: v <= a < v1 ==> Admissible(c, req, Map(c, t1, level, a))
    ensures forall a :: w <= a < v1 ==> Admissible(c, req, Map(c, t2, level, a))
  {
    forall a | w <= a < v1
      ensures Admissible(c, req, Map(c, t2, level, a))
    {
      assert Admissible(c, req, Map(c, t1, level, a));
      if !(Start(level, b) <= a < Start(level, b + 1)) {
        OtherBlock(c, t1, t2, level, b, a);
      }
    }
  }

  /** One turn of a loop: the block of v is done, and the rest of the range is ready. */
  lemma BlockDone(c: Config, t: Tables, t1: Tables, t2: Tables, level: Level, page: nat,
                  v0: nat, v: nat, v1: nat, req: Request)
    requires Ready(c, t1, level, page, v, v1, req)
    requires v0 <= v
    requires Updated(c, t, t1, level, PTRS_PER_TABLE * page, PTRS_PER_TABLE * page + PTRS_PER_TABLE, v0, v, req)
    requires Updated(c, t1, t2, level, Index(level, v), Index(level, v) + 1, v, BlockEnd(level, v, v1), req)
    ensures v < BlockEnd(level, v, v1)
    ensures Updated(c, t, t2, level, PTRS_PER_TABLE * page, PTRS_PER_TABLE * page + PTRS_PER_TABLE,
                    v0, BlockEnd(level, v, v1), req)
    ensures BlockEnd(level, v, v1) < v1 ==> Ready(c, t2, level, page, BlockEnd(level, v, v1), v1, req)
    ensures BlockEnd(level, v, v1) < v1 ==> Index(level, BlockEnd(level, v, v1)) == Index(level, v) + 1
    ensures BlockEnd(level, v, v1) < v1 ==> Index(level, v) + 1 < PTRS_PER_TABLE * page + PTRS_PER_TABLE
  {
    hide Ready, Updated, Ok, Map;
    var w := BlockEnd(level, v, v1);
    BlockBounds(c, t1, level, page, v, v1, req);
    UpdatedStep(c, t, t1, t2, level, PTRS_PER_TABLE * page, PTRS_PER_TABLE * page + PTRS_PER_TABLE,
                Index(level, v), v0, v, w, req);
    if w < v1 {
      RestReady(c, t1, t2, level, page, v, w, v1, req);
    }
  }

  lemma BlockInTable(c: Config, t: Tables, level: Level, page: nat, v: nat, v1: nat, req: Request)
    requires Ready(c, t, level, page, v, v1, req)
    ensures ConfigOk(c) && Sized(c, t) && Ok(c, t, level, Index(level, v))
  {
    NextBlock(level, page, v, v1);
  }

  lemma BlockAbsent(c: Config, t: Tables, level: Level, page: nat, v: nat, v1: nat, req: Request)
    requires Ready(c, t, level, page, v, v1, req) && !req.Establish?
    requires Index(level, v) < |t[level]| && !Present(c.ops, t[level][Index(level, v)])
    ensures Updated(c, t, t, level, Index(level, v), Index(level, v) + 1, v, BlockEnd(level, v, v1), req)
  {
    NextBlock(level, page, v, v1);
    assert Ok(c, t, level, Index(level, v));
    AbsentStep(c, t, level, Index(level, v), v, BlockEnd(level, v, v1), req);
  }

  /** The large page of the next block has been split: the block means the same, and the new table
      is ready to be worked on. */
  lemma SplitDone(c: Config, t1: Tables, t2: Tables, level: Level, page: nat, v: nat, v1: nat, req: Request)
    requires Ready(c, t1, level, page, v, v1, req)
    requires level == IA32E_PDPT || (level == IA32E_PD && c.ops.hasPtPage)
    requires Index(level, v) < |t1[level]|
    requires Present(c.ops, t1[level][Index(level, v)]) && MapsPage(level, t1[level][Index(level, v)])
    requires TableInstalled(c, t1, t2, level, Index(level, v))
    requires SplitEntries(c, t2[level + 1], level, Index(level, v), t1[level][Index(level, v)])
    ensures Updated(c, t1, t2, level, Index(level, v), Index(level, v) + 1, v, v, req)
    ensures Ready(c, t2, level, page, v, v1, req)
    ensures ReferencesTable(c, level, t2[level][Index(level, v)])
  {
    BlockInTable(c, t1, level, page, v, v1, req);
    SplitStep(c, t1, t2, level, Index(level, v), v, req);
    RestReady(c, t1, t2, level, page, v, v, v1, req);
    DefaultRightIsPresent(c.ops, TableEntry(c, level, Index(level, v)).paddr);
  }

  /** The work on the next block has been handed down to the table below. */
  lemma DescendDone(c: Config, t1: Tables, t2: Tables, t3: Tables, level: Level, page: nat, v: nat, v1: nat, req: Request)
    requires level < 3 && Ready(c, t2, level, page, v, v1, req)
    requires Index(level, v) < |t2[level]| && ReferencesTable(c, level, t2[level][Index(level, v)])
    requires Updated(c, t1, t2, level, Index(level, v), Index(level, v) + 1, v, v, req)
    requires t3[level] == t2[level]
    requires var k := Index(level, v);
             Updated(c, t2, t3, level + 1, PTRS_PER_TABLE * k, PTRS_PER_TABLE * k + PTRS_PER_TABLE,
                     v, BlockEnd(level, v, v1), req)
    ensures Updated(c, t1, t3, level, Index(level, v), Index(level, v) + 1, v, BlockEnd(level, v, v1), req)
  {
    hide Ready, Updated, Ok, Map;
    var k := Index(level, v);
    BlockInTable(c, t2, level, page, v, v1, req);
    BlockBounds(c, t2, level, page, v, v1, req);
    UpdatedThroughTable(c, t2, t3, level, k, v, BlockEnd(level, v, v1), req);
    UpdatedStep(c, t1, t2, t3, level, k, k + 1, k, v, v, BlockEnd(level, v, v1), req);
  }

  /** An absent entry stays, a present leaf gets the result of the request. */
  function EntryResult(c: Config, t: Tables, level: Level, k: nat, req: Request): Tables
    requires k < |t[level]|
  {
    if Present(c.ops, t[level][k]) then SetEntry(t, level, k, LocalResult(c, t[level][k], req)) else t
  }

  lemma PteBlock(v: nat, v1: nat)
    requires v % PTE_SIZE == 0 && v1 % PTE_SIZE == 0 && v < v1
    ensures BlockEnd(IA32E_PT, v, v1) == v + PTE_SIZE
  {
  }

  /** The table an entry references is ready for the part of the range in the entry's block. */
  lemma ChildReady(c: Config, t: Tables, level: Level, page: nat, v: nat, v1: nat, req: Request)
    requires Ready(c, t, level, page, v, v1, req) && level < 3
    requires Index(level, v) < |t[level]| && ReferencesTable(c, level, t[level][Index(level, v)])
    ensures var b := Index(level, v);
            && t[level][b] == TableEntry(c, level, b)
            && Ready(c, t, level + 1, b, v, BlockEnd(level, v, v1), req)
  {
    hide Ok, Map;
    var b := Index(level, v);
    BlockBounds(c, t, level, page, v, v1, req);
    ReferencedTable(c, t, level, b);
    ChildBlocks(level, b);
    BlockEnds(level, b + 1);
    AllowedPart(c, req, v, v1, v, BlockEnd(level, v, v1));
    ChildAdmissible(c, t, level, b, v, BlockEnd(level, v, v1), req);
  }

  lemma ReferencedTable(c: Config, t: Tables, level: Level, b: nat)
    requires level < 3 && Ok(c, t, level, b) && ReferencesTable(c, level, t[level][b])
    ensures t[level][b] == TableEntry(c, level, b) && TableOk(c, t, level + 1, b)
  {
  }

  lemma ChildAdmissible(c: Config, t: Tables, level: Level, b: nat, v: nat, w: nat, req: Request)
    requires level < 3 && b < |t[level]| && ReferencesTable(c, level, t[level][b])
    requires Start(level, b) <= v <= w <= Start(level, b + 1)
    requires forall a :: v <= a < w ==> Admissible(c, req, Map(c, t, level, a))
    ensures var child: Level := level + 1;
            forall a :: v <= a < w ==> Admissible(c, req, Map(c, t, child, a))
  {
    var child: Level := level + 1;
    forall a | v <= a < w
      ensures Admissible(c, req, Map(c, t, child, a))
    {
      assert Admissible(c, req, Map(c, t, level, a));
      MapThroughTable(c, t, level, b, a);
    }
  }

  lemma MapThroughTable(c: Config, t: Tables, level: Level, b: nat, a: nat)
    requires level < 3 && b < |t[level]| && ReferencesTable(c, level, t[level][b])
    requires Start(level, b) <= a < Start(level, b + 1)
    ensures Map(c, t, level, a) == Map(c, t, level + 1, a)
  {
    BlockOf(level, a, b);
  }

  /** A large page that the range covers only in part lies above a level that has tables. */
  lemma PartialNeedsPtPage(c: Config, t: Tables, page: nat, v: nat, v1: nat, req: Request)
    requires Ready(c, t, IA32E_PD, page, v, v1, req)
    requires Start(IA32E_PD, Index(IA32E_PD, v) + 1) > v1 || !Aligned(IA32E_PD, v)
    ensures c.ops.hasPtPage
  {
    BlockOf(IA32E_PD, v, Index(IA32E_PD, v));
  }

  /** What local_modify_or_del_pte leaves in an entry. */
  function LocalResult(c: Config, e: Entry, req: Request): Entry {
    if req.Modify? then e.(prot := Modified(e.prot, req.set_, req.clr)) else Sanitized(c)
  }

  /** What a modification of a range asks of a leaf that lies in it whole. */
  lemma ModifiesLeaf(c: Config, t: Tables, level: Level, v: nat, v1: nat, b: nat, req: Request)
    requires req.Modify? && Allowed(c, req, v, v1) && v == Start(level, b) && Start(level, b + 1) <= v1
    requires b < |t[level]| && Present(c.ops, t[level][b]) && MapsPage(level, t[level][b])
    requires Admissible(c, req, Map(c, t, level, v)) && v < Start(level, b + 1) && level > 0
    ensures PAGE_PS !! req.clr - req.set_
    ensures VisiblyPresent(c.ops, Modified(Visible(c.ops, t[level][b].prot), req.set_, req.clr))
    ensures c.noExecLarge && level < IA32E_PT ==> EPT_EXE !! req.set_
  {
    MapOfLeaf(c, t, level, b, v);
    hide Map, Visible, VisiblyPresent, Modified;
    if c.noExecLarge && level < IA32E_PT {
      CoversBlock(level, b, v, v1);
    }
  }

  /** A leaf that lies in the range whole is changed or deleted in place. */
  lemma WholeLeafStep(c: Config, t: Tables, level: Level, page: nat, v: nat, v1: nat, req: Request)
    requires Ready(c, t, level, page, v, v1, req) && level > 0 && !req.Establish?
    requires Aligned(level, v) && Start(level, Index(level, v) + 1) <= v1
    requires Index(level, v) < |t[level]|
    requires Present(c.ops, t[level][Index(level, v)]) && MapsPage(level, t[level][Index(level, v)])
    ensures var b := Index(level, v);
            Updated(c, t, SetEntry(t, level, b, LocalResult(c, t[level][b], req)), level, b, b + 1,
                    v, Start(level, b + 1), req)
  {
    var b := Index(level, v);
    NextBlock(level, page, v, v1);
    assert Ok(c, t, level, b);
    AlignedStart(level, v);
    hide Ok, Map, Updated, Visible, VisiblyPresent, Modified, Allowed;
    if req.Delete? {
      DeleteLeafStep(c, t, level, b);
    } else {
      assert Admissible(c, req, Map(c, t, level, v));
      ModifiesLeaf(c, t, level, v, v1, b, req);
      ModifyLeafStep(c, t, level, b, req.set_, req.clr);
    }
  }

  lemma CoversBlock(level: Level, b: nat, v: nat, v1: nat)
    requires level == IA32E_PDPT || level == IA32E_PD
    requires v <= Start(level, b) && Start(level, b + 1) <= v1
    ensures CoversWholePde(v, v1)
  {
    if level == IA32E_PDPT {
      assert v <= Start(IA32E_PD, PTRS_PER_TABLE * b) && Start(IA32E_PD, PTRS_PER_TABLE * b + 1) <= v1;
    } else {
      assert v <= Start(IA32E_PD, b) && Start(IA32E_PD, b + 1) <= v1;
    }
  }

  // ---- Turns that add mappings ----

  /** The physical address an establishing request gives to an address of its range. */
  function PaddrOf(req: Request, v: nat): nat
    requires req.Establish? && req.vbase <= v
  {
    req.pbase + (v - req.vbase)
  }

  /** Where a new mapping is asked for, no page is mapped yet: the tests of add_pte, add_pde and
      add_pdpte for pages that are mapped already never succeed. */
  lemma NothingMapped(c: Config, t: Tables, level: Level, page: nat, v: nat, v1: nat, req: Request)
    requires Ready(c, t, level, page, v, v1, req) && req.Establish?
    ensures Index(level, v) < |t[level]|
    ensures var e := t[level][Index(level, v)];
            && !(Present(c.ops, e) && MapsPage(level, e))
            && (0 < level ==> !Large(e))
  {
    BlockInTable(c, t, level, page, v, v1, req);
    BlockOf(level, v, Index(level, v));
    assert Admissible(c, req, Map(c, t, level, v));
    SanitizedIsAbsent(c);
    if Present(c.ops, t[level][Index(level, v)]) && !MapsPage(level, t[level][Index(level, v)]) && 0 < level {
      DefaultRightIsPresent(c.ops, 0);
    }
  }

  /** A block that lies in the range whole is mapped by one fresh leaf. */
  lemma WholeBlockStep(c: Config, t: Tables, level: Level, page: nat, v: nat, v1: nat, req: Request, e: Entry)
    requires Ready(c, t, level, page, v, v1, req) && req.Establish? && level > 0
    requires Aligned(level, v) && Start(level, Index(level, v) + 1) <= v1
    requires e.paddr == PaddrOf(req, v) && Aligned(level, e.paddr)
    requires MapsPage(level, e) && Visible(c.ops, e.prot) == Visible(c.ops, req.prot)
    requires c.noExecLarge && level < IA32E_PT ==> EPT_EXE !! e.prot
    ensures Index(level, v) < |t[level]|
    ensures var b := Index(level, v);
            Updated(c, t, SetEntry(t, level, b, e), level, b, b + 1, v, BlockEnd(level, v, v1), req)
  {
    var b := Index(level, v);
    BlockInTable(c, t, level, page, v, v1, req);
    AlignedStart(level, v);
    BlockOf(level, v, b);
    assert LeafOk(c, level, b, e);
    EstablishLeafStep(c, t, level, b, e, req);
  }

  /** There is a slot for every address of a range that may be mapped. */
  lemma SlotRoom(c: Config, t: Tables, level: Level, page: nat, v: nat, v1: nat, req: Request)
    requires Ready(c, t, level, page, v, v1, req) && req.Establish?
    requires level < IA32E_PD || (level == IA32E_PD && c.ops.hasPtPage)
    ensures PTRS_PER_TABLE * Index(level, v) + PTRS_PER_TABLE <= |t[level + 1]|
  {
  }

  lemma RangeInSpace(c: Config, req: Request, v0: nat, v1: nat)
    requires ConfigOk(c) && Allowed(c, req, v0, v1) && req.Establish?
    ensures v1 <= ADDRESS_LIMIT && VisiblyPresent(c.ops, req.prot)
  {
  }

  /** Without get_pt_page a new mapping never needs a page table. */
  lemma SmallNeedsPtPage(c: Config, t: Tables, page: nat, v: nat, v1: nat, req: Request)
    requires Ready(c, t, IA32E_PD, page, v, v1, req) && req.Establish?
    requires !(c.ops.largePageEnabled && PaddrOf(req, v) % PDE_SIZE == 0 && v % PDE_SIZE == 0
               && v / PDE_SIZE * PDE_SIZE + PDE_SIZE <= v1)
    ensures c.ops.hasPtPage
  {
    hide Ok, Map;
    if !c.ops.hasPtPage {
      AlignedPdes(v, v1, req.pbase, req.vbase);
      assert false;
    }
  }

  lemma AlignedPdes(v: nat, v1: nat, pbase: nat, vbase: nat)
    requires v % PDE_SIZE == 0 && v1 % PDE_SIZE == 0 && pbase % PDE_SIZE == 0 && vbase % PDE_SIZE == 0
    requires vbase <= v < v1
    ensures v / PDE_SIZE * PDE_SIZE + PDE_SIZE <= v1
    ensures (pbase + (v - vbase)) % PDE_SIZE == 0
  {
    var i, j, k, l := v / PDE_SIZE, v1 / PDE_SIZE, pbase / PDE_SIZE, vbase / PDE_SIZE;
    assert v == i * PDE_SIZE && v1 == j * PDE_SIZE && pbase == k * PDE_SIZE && vbase == l * PDE_SIZE;
    assert pbase + (v - vbase) == (k + (i - l)) * PDE_SIZE;
    PdeMultiple(k + (i - l));
  }

  /** An empty table has been put in place of an absent entry. */
  lemma ConstructDone(c: Config, t1: Tables, t2: Tables, level: Level, page: nat, v: nat, v1: nat, req: Request)
    requires Ready(c, t1, level, page, v, v1, req)
    requires level < IA32E_PD || (level == IA32E_PD && c.ops.hasPtPage)
    requires Index(level, v) < |t1[level]| && !Present(c.ops, t1[level][Index(level, v)])
    requires TableInstalled(c, t1, t2, level, Index(level, v))
    requires TableFilled(t2[level + 1], Index(level, v), Sanitized(c))
    ensures Updated(c, t1, t2, level, Index(level, v), Index(level, v) + 1, v, v, req)
    ensures Ready(c, t2, level, page, v, v1, req)
    ensures ReferencesTable(c, level, t2[level][Index(level, v)])
  {
    BlockInTable(c, t1, level, page, v, v1, req);
    ConstructStep(c, t1, t2, level, Index(level, v), v, req);
    RestReady(c, t1, t2, level, page, v, v, v1, req);
    DefaultRightIsPresent(c.ops, TableEntry(c, level, Index(level, v)).paddr);
  }

  // ---- Whole requests ----

  const ADDRESS_LIMIT: nat := 0x1_0000_0000_0000

  function RoundPageDown(a: nat): nat {
    a / PAGE_SIZE * PAGE_SIZE
  }

  function RoundPageUp(a: nat): nat {
    (a + PAGE_SIZE - 1) / PAGE_SIZE * PAGE_SIZE
  }

  const UINT64: nat := 0x1_0000_0000_0000_0000

  /** Where a range ends, rounded to pages, in the 64-bit arithmetic of the engine: past the top of
      the 64-bit space it is below its start, and the range is empty. */
  function RangeEnd(base: nat, size: nat): nat {
    RoundPageDown(Wrapped(Wrapped(base + size) + PAGE_SIZE - 1))
  }

  function Wrapped(x: nat): (r: nat)
    ensures r < UINT64
    ensures x < UINT64 ==> r == x
    ensures UINT64 <= x < 2 * UINT64 ==> r == x - UINT64
  {
    x % UINT64
  }

  lemma PageBounds(a: nat)
    ensures RoundPageDown(a) % PAGE_SIZE == 0 && RoundPageDown(a) <= a < RoundPageDown(a) + PAGE_SIZE
    ensures RoundPageUp(a) % PAGE_SIZE == 0 && a <= RoundPageUp(a) < a + PAGE_SIZE
  {
    PteMultiple(a / PAGE_SIZE);
    PteMultiple((a + PAGE_SIZE - 1) / PAGE_SIZE);
  }

  function PageOf(a: nat): nat {
    a / PAGE_SIZE
  }

  /** The page of an address holds one of the size bytes from base on. An empty range that does not begin
      at a page counts as its page: the engine rounds its ends apart. */
  ghost predicate HoldsBytes(base: nat, size: nat, a: nat) {
    || (exists x: nat :: base <= x < base + size && PageOf(x) == PageOf(a))
    || (size == 0 && base % PAGE_SIZE != 0 && PageOf(a) == PageOf(base))
  }

  /** The engine works on the pages that hold bytes of the range it is given, when the range does not
      reach the top of the 64-bit space. */
  lemma RangeHoldsBytes(base: nat, size: nat, a: nat)
    requires base + size + PAGE_SIZE <= UINT64
    ensures RoundPageDown(base) <= a < RangeEnd(base, size) <==> HoldsBytes(base, size, a)
  {
    RangeEndIs(base, size);
    hide RangeEnd, RoundPageDown, RoundPageUp, PageOf;
    if RoundPageDown(base) <= a < RangeEnd(base, size) {
      ByteInPage(base, size, a);
    }
    if HoldsBytes(base, size, a) {
      PageInRange(base, size, a);
    }
  }

  lemma ByteInPage(base: nat, size: nat, a: nat)
    requires RoundPageDown(base) <= a < RoundPageUp(base + size)
    ensures HoldsBytes(base, size, a)
  {
    SamePage(base, a);
    SamePage(base + size, a);
    PageBounds(base);
    PageBounds(base + size);
    if size > 0 {
      var x := if a < base then base else if a < base + size then a else base + size - 1;
      SamePage(x, a);
      PageOrder(x, base + size);
      hide RoundPageDown, RoundPageUp, PageOf;
      PageBounds(x);
      assert PageOf(x) == PageOf(a);
    }
  }

  lemma PageInRange(base: nat, size: nat, a: nat)
    requires HoldsBytes(base, size, a)
    ensures RoundPageDown(base) <= a < RoundPageUp(base + size)
  {
    SamePage(base, a);
    hide RoundPageDown, RoundPageUp, PageOf;
    if x: nat :| base <= x < base + size && PageOf(x) == PageOf(a) {
      SamePage(x, a);
      PageOrder(base, x);
      PageOrder(x, base + size);
    }
  }

  lemma SamePage(x: nat, a: nat)
    ensures PageOf(x) == PageOf(a) <==> RoundPageDown(x) <= a < RoundPageDown(x) + PAGE_SIZE
    ensures RoundPageUp(x) == if x % PAGE_SIZE == 0 then x else RoundPageDown(x) + PAGE_SIZE
    ensures x % PAGE_SIZE == 0 <==> RoundPageDown(x) == x
  {
  }

  lemma PageOrder(x: nat, y: nat)
    requires x <= y
    ensures RoundPageDown(x) <= RoundPageDown(y)
    ensures x < y ==> RoundPageDown(x) + PAGE_SIZE <= RoundPageUp(y)
  {
  }

  /** A range that reaches the top has no pages, except that its first page is left when its end has wrapped
      into that page. */
  lemma WrappedRange(base: nat, size: nat, a: nat)
    requires base < UINT64 && size < UINT64 && base + size + PAGE_SIZE > UINT64
    ensures RoundPageDown(base) <= a < RangeEnd(base, size) <==>
              PageOf(a) == PageOf(base) && base + size - UINT64 > RoundPageDown(base) && base + PAGE_SIZE <= UINT64
  {
    var end := Wrapped(base + size);
    SamePage(base, a);
    PageBounds(base);
    if end + PAGE_SIZE <= UINT64 {
      RangeEndIs(base, size);
      SamePage(end, a);
      PageBounds(end);
      PageOrder(end, base);
      WrappedEnd(base, end);
    } else {
      assert Wrapped(end + PAGE_SIZE - 1) < PAGE_SIZE;
    }
  }

  lemma WrappedEnd(base: nat, end: nat)
    requires end < base
    ensures RoundPageUp(end) > RoundPageDown(base) ==> RoundPageUp(end) == RoundPageDown(base) + PAGE_SIZE
    ensures RoundPageUp(end) > RoundPageDown(base) <==> end > RoundPageDown(base)
  {
  }

  lemma RangeEndIs(base: nat, size: nat)
    requires Wrapped(base + size) + PAGE_SIZE <= UINT64
    ensures RangeEnd(base, size) == RoundPageUp(Wrapped(base + size))
  {
    hide Wrapped;
  }

  /** The request has been carried out on [v0, v1) and nothing else has changed. */
  ghost predicate CarriedOut(c: Config, t: Tables, t': Tables, v0: nat, v1: nat, req: Request) {
    forall a :: 0 <= a < ADDRESS_LIMIT ==>
      Translate(c, t', a) == if v0 <= a < v1 then Apply(c, req, a, Translate(c, t, a)) else Translate(c, t, a)
  }

  /** Every page that holds one of size bytes from vbase on has been mapped, the byte at vbase to the page of
      pbase, and no other address is affected. */
  ghost predicate BytesMapped(c: Config, t: Tables, t': Tables, vbase: nat, size: nat, pbase: nat, prot: Prot) {
    forall a :: 0 <= a < ADDRESS_LIMIT ==>
      if HoldsBytes(vbase, size, a) then
        && Translate(c, t', a).Some?
        && Translate(c, t', a).value.paddr + (vbase - vbase % PAGE_SIZE) == (pbase - pbase % PAGE_SIZE) + a
        && Translate(c, t', a).value.prot == prot - Hidden(c.ops)
      else Translate(c, t', a) == Translate(c, t, a)
  }

  /** The same for a modification, which keeps physical addresses and maps nothing new, and a deletion. */
  ghost predicate BytesChanged(c: Config, t: Tables, t': Tables, base: nat, size: nat, req: Request) {
    forall a :: 0 <= a < ADDRESS_LIMIT ==>
      if !HoldsBytes(base, size, a) then Translate(c, t', a) == Translate(c, t, a)
      else if req.Modify? && Translate(c, t, a).Some? then
        && Translate(c, t', a).Some?
        && Translate(c, t', a).value.paddr == Translate(c, t, a).value.paddr
        && Translate(c, t', a).value.prot == (Translate(c, t, a).value.prot - req.clr) + (req.set_ - Hidden(c.ops))
      else Translate(c, t', a) == None
  }

  lemma RoundedBytes(base: nat)
    ensures RoundPageDown(base) == base - base % PAGE_SIZE
  {
  }

  lemma CarriedOutMaps(c: Config, t: Tables, t': Tables, vbase: nat, size: nat, pbase: nat, prot: Prot)
    requires vbase + size + PAGE_SIZE <= UINT64
    requires CarriedOut(c, t, t', RoundPageDown(vbase), RangeEnd(vbase, size),
                        Establish(RoundPageDown(vbase), RoundPageDown(pbase), prot))
    ensures BytesMapped(c, t, t', vbase, size, pbase, prot)
  {
    RoundedBytes(vbase);
    RoundedBytes(pbase);
    hide RoundPageDown, RangeEnd, HoldsBytes, Translate;
    forall a: nat | a < ADDRESS_LIMIT
      ensures RoundPageDown(vbase) <= a < RangeEnd(vbase, size) <==> HoldsBytes(vbase, size, a)
    {
      RangeHoldsBytes(vbase, size, a);
    }
  }

  lemma CarriedOutChanges(c: Config, t: Tables, t': Tables, base: nat, size: nat, req: Request)
    requires base + size + PAGE_SIZE <= UINT64 && !req.Establish?
    requires CarriedOut(c, t, t', RoundPageDown(base), RangeEnd(base, size), req)
    ensures BytesChanged(c, t, t', base, size, req)
  {
    hide RoundPageDown, RangeEnd, HoldsBytes;
    forall a: nat | a < ADDRESS_LIMIT
      ensures RoundPageDown(base) <= a < RangeEnd(base, size) <==> HoldsBytes(base, size, a)
      ensures Translate(c, t, a).Some? ==> Translate(c, t, a).value.prot !! Hidden(c.ops)
    {
      RangeHoldsBytes(base, size, a);
      WalkVisible(c, t, IA32E_PML4, 0, a);
    }
    hide Translate;
  }

  lemma {:induction false} WalkVisible(c: Config, t: Tables, level: Level, page: nat, a: nat)
    ensures Walk(c, t, level, page, a).Some? ==> Walk(c, t, level, page, a).value.prot !! Hidden(c.ops)
    decreases 3 - level
  {
    var k := PTRS_PER_TABLE * page + Index(level, a) % PTRS_PER_TABLE;
    if k < |t[level]| && ReferencesTable(c, level, t[level][k]) && t[level][k].paddr >= Base(c, level + 1) {
      WalkVisible(c, t, level + 1, (t[level][k].paddr - Base(c, level + 1)) / PAGE_SIZE, a);
    }
  }

  /** A byte of the range goes where the two bases say, if these lie alike in their pages, and only then. */
  lemma ByteMapped(c: Config, t: Tables, t': Tables, vbase: nat, size: nat, pbase: nat, prot: Prot, x: nat)
    requires BytesMapped(c, t, t', vbase, size, pbase, prot) && vbase <= x < vbase + size && x < ADDRESS_LIMIT
    ensures Translate(c, t', x).Some?
    ensures Translate(c, t', x).value.paddr == pbase + (x - vbase) <==> vbase % PAGE_SIZE == pbase % PAGE_SIZE
  {
    hide Translate;
    assert PageOf(x) == x / PAGE_SIZE;
    assert HoldsBytes(vbase, size, x);
  }

  ghost predicate AdmissibleOn(c: Config, t: Tables, v0: nat, v1: nat, req: Request) {
    forall a :: v0 <= a < v1 ==> Admissible(c, req, Translate(c, t, a))
  }

  lemma DeleteAdmissible(c: Config, t: Tables, v0: nat, v1: nat)
    ensures AdmissibleOn(c, t, v0, v1, Delete)
  {
  }

  /** The PML4 entries of a range reference tables. */
  ghost predicate Pml4Present(c: Config, t: Tables, v0: nat, v1: nat) {
    v0 < v1 ==> forall i: nat :: i < |t[IA32E_PML4]| && Index(IA32E_PML4, v0) <= i && Start(IA32E_PML4, i) < v1 ==>
      Present(c.ops, t[IA32E_PML4][i])
  }

  /** A deletion also passes over PML4 entries that hold the sanitized page: all its entries are absent. */
  ghost predicate Pml4Usable(c: Config, t: Tables, v0: nat, v1: nat, req: Request) {
    v0 < v1 ==> forall i: nat :: i < |t[IA32E_PML4]| && Index(IA32E_PML4, v0) <= i && Start(IA32E_PML4, i) < v1 ==>
      Present(c.ops, t[IA32E_PML4][i]) || (req.Delete? && t[IA32E_PML4][i] == Sanitized(c))
  }

  lemma ClearedRoot(c: Config, t: Tables)
    requires ConfigOk(c) && Sized(c, t)
    requires forall i :: 0 <= i < PTRS_PER_TABLE ==> t[IA32E_PML4][i] == Entry(0, {})
    ensures WellFormed(c, t)
    ensures forall a :: 0 <= a < ADDRESS_LIMIT ==> Translate(c, t, a) == None
  {
    assert !Present(c.ops, Entry(0, {})) by {
      assert {} * c.ops.presentMask == {};
    }
  }

  lemma RootReady(c: Config, t: Tables, v0: nat, v1: nat, req: Request)
    requires WellFormed(c, t)
    requires v0 < v1 <= ADDRESS_LIMIT && Allowed(c, req, v0, v1) && AdmissibleOn(c, t, v0, v1, req)
    ensures Ready(c, t, IA32E_PML4, 0, v0, v1, req)
  {
    forall a | v0 <= a < v1
      ensures Admissible(c, req, Map(c, t, IA32E_PML4, a))
    {
      TranslateIsMap(c, t, a);
      assert Admissible(c, req, Translate(c, t, a));
    }
  }

  lemma RootUpdated(c: Config, t: Tables, t': Tables, v0: nat, v1: nat, req: Request)
    requires WellFormed(c, t)
    requires Updated(c, t, t', IA32E_PML4, 0, PTRS_PER_TABLE, v0, v1, req)
    ensures WellFormed(c, t') && CarriedOut(c, t, t', v0, v1, req)
  {
    UpdatedSized(c, t, t', IA32E_PML4, 0, PTRS_PER_TABLE, v0, v1, req);
    assert WellFormed(c, t');
    forall a | 0 <= a < ADDRESS_LIMIT
      ensures Translate(c, t', a)
           == if v0 <= a < v1 then Apply(c, req, a, Translate(c, t, a)) else Translate(c, t, a)
    {
      TranslateIsMap(c, t, a);
      TranslateIsMap(c, t', a);
    }
  }
}
