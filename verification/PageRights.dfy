/** The execute right of new 4-KByte pages: a large page made earlier in a call takes it away from the pages
    that follow in the same tables, because effective_prot is not reset. */
module PageRights {
  import opened PageEntry
  import opened Paging
  import opened PagingSteps
  import opened PagingRanges
  import opened PageSizes
  import opened Wrappers

  /** a0 is mapped by a large page that the loop which maps a, or the one above it, has made before. */
  ghost predicate InTheWay(c: Config, t: Tables, level: Level, a0: nat, a: nat) {
    var e := EndAt(c, t, level, a0);
    e.prot.Some? &&
    (|| (e.level == IA32E_PD && Index(IA32E_PDPT, a0) == Index(IA32E_PDPT, a))
     || (e.level == IA32E_PDPT && Index(IA32E_PML4, a0) == Index(IA32E_PML4, a)))
  }

  ghost predicate LostRight(c: Config, t: Tables, level: Level, v0: nat, a: nat) {
    exists a0: nat :: v0 <= a0 < a && InTheWay(c, t, level, a0, a)
  }

  /** All of [v0, v) is mapped, 4-KByte pages with the bits asked for, but for the execute bit where it has
      been lost. */
  ghost predicate RightsDone(c: Config, t: Tables, level: Level, v0: nat, v: nat, prot: Prot) {
    forall a: nat :: v0 <= a < v ==>
      var e := EndAt(c, t, level, a);
      e.prot.Some? &&
      (e.level == IA32E_PT ==> e.prot.value == if LostRight(c, t, level, v0, a) then TweakExeRight(c.ops, prot) else prot)
  }

  /** A large page of the level itself has been made on [v0, v). */
  ghost predicate Made(c: Config, t: Tables, level: Level, v0: nat, v: nat) {
    exists a0: nat :: v0 <= a0 < v && IsMade(c, t, level, a0)
  }

  ghost predicate IsMade(c: Config, t: Tables, level: Level, a: nat) {
    EndAt(c, t, level, a).level == level && EndAt(c, t, level, a).prot.Some?
  }

  /** The effective_prot of a loop that has come to v. */
  ghost predicate Effective(c: Config, t: Tables, level: Level, v0: nat, v: nat, prot: Prot, effective: Prot) {
    effective == if Made(c, t, level, v0, v) then TweakExeRight(c.ops, prot) else prot
  }

  /** The part of a range in a block of a table with the addresses [lo, hi). */
  predicate TablePart(level: Level, b: nat, v0: nat, v: nat, w: nat) {
    && 0 < level < 3 && PartOf(level, b, v0, v, w) && v < w
    && Start(level - 1, Index(level - 1, v)) <= v0
  }

  lemma PartInTable(c: Config, t: Tables, level: Level, page: nat, v0: nat, v: nat, v1: nat, req: Request)
    requires 0 < level < 3 && Ready(c, t, level, page, v, v1, req) && v0 <= v && AtHead(level, v0, v)
    requires Start(level, PTRS_PER_TABLE * page) <= v0
    ensures TablePart(level, Index(level, v), v0, v, BlockEnd(level, v, v1))
  {
    BlockBounds(c, t, level, page, v, v1, req);
    ChildIndex(level - 1, v);
    ChildBlocks(level - 1, page);
  }

  lemma SameParent(level: Level, b: nat, v0: nat, v: nat, w: nat, a: nat)
    requires TablePart(level, b, v0, v, w) && v0 <= a < w
    ensures Index(level - 1, a) == Index(level - 1, v)
    ensures Index(level, a) == b <==> v <= a
  {
    var p := Index(level - 1, v);
    BlockOf(level, v, b);
    BlockOf(level - 1, v, p);
    ChildIndex(level - 1, v);
    BlockInBlock(level - 1, level, p, v);
    BlockOf(level - 1, a, p);
    BlockOf(level, a, b);
  }

  lemma PartHere(c: Config, t: Tables, v0: nat, v: nat, v1: nat, req: Request)
    requires Ready(c, t, IA32E_PML4, 0, v, v1, req) && v0 <= v && AtHead(IA32E_PML4, v0, v)
    ensures PartOf(IA32E_PML4, Index(IA32E_PML4, v), v0, v, BlockEnd(IA32E_PML4, v, v1))
  {
    BlockBounds(c, t, IA32E_PML4, 0, v, v1, req);
  }

  /** Seen from a table, an earlier large page of the table itself is in the way, and otherwise one in the
      block of the address. */
  lemma LostInTable(c: Config, t1: Tables, t2: Tables, level: Level, b: nat, v0: nat, v: nat, w: nat, a: nat)
    requires TablePart(level, b, v0, v, w) && v <= a < w
    requires SameOutside(t1, t2, Start(level, b), Start(level, b + 1))
    ensures LostRight(c, t2, level, v0, a) <==> Made(c, t1, level, v0, v) || LostRight(c, t2, level, v, a)
  {
    hide EndAt, SameOutside, Index, Start;
    forall a0: nat | v0 <= a0 < v
      ensures EndAt(c, t2, level, a0) == EndAt(c, t1, level, a0)
      ensures InTheWay(c, t2, level, a0, a) <==> IsMade(c, t1, level, a0)
    {
      EarlierBlock(c, t1, t2, level, b, v0, v, w, a0, a);
    }
    if Made(c, t1, level, v0, v) {
      var a0: nat :| v0 <= a0 < v && IsMade(c, t1, level, a0);
      assert InTheWay(c, t2, level, a0, a);
    }
    if LostRight(c, t2, level, v0, a) {
      var a0: nat :| v0 <= a0 < a && InTheWay(c, t2, level, a0, a);
    }
  }

  lemma EarlierBlock(c: Config, t1: Tables, t2: Tables, level: Level, b: nat, v0: nat, v: nat, w: nat, a0: nat, a: nat)
    requires TablePart(level, b, v0, v, w) && v0 <= a0 < v <= a < w
    requires SameOutside(t1, t2, Start(level, b), Start(level, b + 1))
    ensures EndAt(c, t2, level, a0) == EndAt(c, t1, level, a0)
    ensures InTheWay(c, t2, level, a0, a) <==> IsMade(c, t1, level, a0)
  {
    SameParent(level, b, v0, v, w, a0);
    SameParent(level, b, v0, v, w, a);
    BlockOf(level, a0, b);
    hide EndAt, SameOutside, Start;
    EndOtherBlock(c, t1, t2, level, b, a0);
    ChildIndex(level - 1, a0);
    ChildIndex(level - 1, a);
  }

  /** One turn of the loop of add_pde or add_pdpte. */
  lemma RightsTurn(c: Config, t1: Tables, t2: Tables, level: Level, b: nat, v0: nat, v: nat, w: nat,
                   prot: Prot, effective: Prot, effective': Prot)
    requires TablePart(level, b, v0, v, w)
    requires SameOutside(t1, t2, Start(level, b), Start(level, b + 1))
    requires RightsDone(c, t1, level, v0, v, prot) && Effective(c, t1, level, v0, v, prot, effective)
    requires RightsDone(c, t2, level, v, w, effective)
    requires effective' == if IsMade(c, t2, level, v) then TweakExeRight(c.ops, effective) else effective
    ensures RightsDone(c, t2, level, v0, w, prot) && Effective(c, t2, level, v0, w, prot, effective')
  {
    hide EndAt, SameOutside, Index, LostRight, Start, Made, IsMade;
    forall a: nat | v0 <= a < w
      ensures var e := EndAt(c, t2, level, a);
              e.prot.Some? &&
              (e.level == IA32E_PT ==> e.prot.value == if LostRight(c, t2, level, v0, a) then TweakExeRight(c.ops, prot) else prot)
    {
      if v <= a {
        LostInTable(c, t1, t2, level, b, v0, v, w, a);
      } else {
        LostBefore(c, t1, t2, level, b, v0, v, w, a);
      }
    }
    MadeSoFar(c, t1, t2, level, b, v0, v, w);
  }

  lemma LostBefore(c: Config, t1: Tables, t2: Tables, level: Level, b: nat, v0: nat, v: nat, w: nat, a: nat)
    requires TablePart(level, b, v0, v, w) && v0 <= a < v
    requires SameOutside(t1, t2, Start(level, b), Start(level, b + 1))
    ensures EndAt(c, t2, level, a) == EndAt(c, t1, level, a)
    ensures LostRight(c, t2, level, v0, a) <==> LostRight(c, t1, level, v0, a)
  {
    hide EndAt, SameOutside, Index, Start, InTheWay;
    forall a0: nat | v0 <= a0 <= a
      ensures EndAt(c, t2, level, a0) == EndAt(c, t1, level, a0)
      ensures InTheWay(c, t2, level, a0, a) <==> InTheWay(c, t1, level, a0, a)
    {
      EarlierBlock(c, t1, t2, level, b, v0, v, w, a0, v);
      SameInTheWay(c, t1, t2, level, a0, a);
    }
  }

  lemma SameInTheWay(c: Config, t1: Tables, t2: Tables, level: Level, a0: nat, a: nat)
    requires EndAt(c, t2, level, a0) == EndAt(c, t1, level, a0)
    ensures InTheWay(c, t2, level, a0, a) <==> InTheWay(c, t1, level, a0, a)
  {
  }

  lemma MadeSoFar(c: Config, t1: Tables, t2: Tables, level: Level, b: nat, v0: nat, v: nat, w: nat)
    requires TablePart(level, b, v0, v, w)
    requires SameOutside(t1, t2, Start(level, b), Start(level, b + 1))
    ensures Made(c, t2, level, v0, w) <==> Made(c, t1, level, v0, v) || IsMade(c, t2, level, v)
  {
    hide SameOutside;
    forall a: nat | v0 <= a < w
      ensures a < v ==> (IsMade(c, t2, level, a) <==> IsMade(c, t1, level, a))
      ensures v <= a ==> (IsMade(c, t2, level, a) <==> IsMade(c, t2, level, v))
    {
      if a < v {
        hide EndAt;
        EarlierBlock(c, t1, t2, level, b, v0, v, w, a, v);
      } else {
        SameParent(level, b, v0, v, w, a);
        SameParent(level, b, v0, v, w, v);
        MadeByEntry(c, t2, level, a, v);
      }
    }
    hide IsMade;
    if Made(c, t1, level, v0, v) {
      var a0: nat :| v0 <= a0 < v && IsMade(c, t1, level, a0);
      assert IsMade(c, t2, level, a0);
    }
  }

  lemma MadeByEntry(c: Config, t: Tables, level: Level, a: nat, a': nat)
    requires Index(level, a) == Index(level, a') && level < 3
    ensures IsMade(c, t, level, a) <==> IsMade(c, t, level, a')
  {
  }

  /** Through an entry that references a table, rights are those of the table. */
  lemma RightsThroughTable(c: Config, t: Tables, level: Level, b: nat, v: nat, w: nat, prot: Prot)
    requires level < 3 && b < |t[level]| && ReferencesTable(c, level, t[level][b])
    requires Start(level, b) <= v <= w <= Start(level, b + 1)
    requires RightsDone(c, t, level + 1, v, w, prot)
    ensures RightsDone(c, t, level, v, w, prot)
    ensures v < w ==> !IsMade(c, t, level, v)
  {
    hide EndAt, Start, Index;
    var child: Level := level + 1;
    forall a: nat | v <= a < w
      ensures EndAt(c, t, level, a) == EndAt(c, t, child, a)
    {
      EndThroughTable(c, t, level, b, a);
    }
    forall a: nat | v <= a < w
      ensures LostRight(c, t, level, v, a) <==> LostRight(c, t, child, v, a)
    {
      forall a0: nat | v <= a0 < a
        ensures InTheWay(c, t, level, a0, a) <==> InTheWay(c, t, child, a0, a)
      {
      }
    }
  }

  /** A large page has no 4-KByte pages. */
  lemma RightsOfPage(c: Config, t: Tables, level: Level, b: nat, v: nat, w: nat, prot: Prot)
    requires 0 < level < 3 && b < |t[level]| && Present(c.ops, t[level][b]) && MapsPage(level, t[level][b])
    requires Start(level, b) <= v < w <= Start(level, b + 1)
    ensures RightsDone(c, t, level, v, w, prot) && IsMade(c, t, level, v)
  {
    hide EndAt, LostRight;
    forall a: nat | v <= a < w
      ensures EndAt(c, t, level, a) == WalkEnd(level, Some(t[level][b].prot))
    {
      EndOfPage(c, t, level, b, a);
    }
  }

  /** One turn of the loop of add_pte. */
  lemma RightsOfPte(c: Config, t1: Tables, t2: Tables, b: nat, v0: nat, v: nat, prot: Prot)
    requires RightsDone(c, t1, IA32E_PT, v0, v, prot) && v0 <= v == Start(IA32E_PT, b)
    requires SameOutside(t1, t2, Start(IA32E_PT, b), Start(IA32E_PT, b + 1))
    requires b < |t2[IA32E_PT]| && Present(c.ops, t2[IA32E_PT][b]) && t2[IA32E_PT][b].prot == prot
    ensures RightsDone(c, t2, IA32E_PT, v0, v + PTE_SIZE, prot)
  {
    hide SameOutside;
    BlockOf(IA32E_PT, v, b);
    forall a: nat | v0 <= a < v + PTE_SIZE
      ensures EndAt(c, t2, IA32E_PT, a) == WalkEnd(IA32E_PT, Some(prot))
    {
      if a < v {
        NoLargeBelow(c, t1, v0, a);
        hide EndAt;
        EndOtherBlock(c, t1, t2, IA32E_PT, b, a);
      } else {
        EndOfPage(c, t2, IA32E_PT, b, a);
      }
    }
    forall a: nat | v0 <= a < v + PTE_SIZE
      ensures !LostRight(c, t2, IA32E_PT, v0, a)
    {
      NoLargeBelow(c, t2, v0, a);
    }
  }

  lemma NoLargeBelow(c: Config, t: Tables, v0: nat, a: nat)
    ensures !LostRight(c, t, IA32E_PT, v0, a) && EndAt(c, t, IA32E_PT, a).level == IA32E_PT
  {
  }

  /** One turn of the loop of mmu_add, which begins with the bits asked for. */
  lemma RightsOfPml4e(c: Config, t1: Tables, t2: Tables, b: nat, v0: nat, v: nat, w: nat, prot: Prot)
    requires PartOf(IA32E_PML4, b, v0, v, w)
    requires SameOutside(t1, t2, Start(IA32E_PML4, b), Start(IA32E_PML4, b + 1))
    requires RightsDone(c, t1, IA32E_PML4, v0, v, prot) && RightsDone(c, t2, IA32E_PML4, v, w, prot)
    ensures RightsDone(c, t2, IA32E_PML4, v0, w, prot)
  {
    hide EndAt, SameOutside, Index, InTheWay, LostRight;
    forall a: nat | v0 <= a < w
      ensures v <= a ==> (LostRight(c, t2, IA32E_PML4, v0, a) <==> LostRight(c, t2, IA32E_PML4, v, a))
      ensures a < v ==> EndAt(c, t2, IA32E_PML4, a) == EndAt(c, t1, IA32E_PML4, a)
      ensures a < v ==> (LostRight(c, t2, IA32E_PML4, v0, a) <==> LostRight(c, t1, IA32E_PML4, v0, a))
    {
      if v <= a {
        LostInPml4e(c, t1, t2, b, v0, v, w, a);
      } else {
        EarlierPml4e(c, t1, t2, b, v0, v, w, a, a);
        LostBeforePml4e(c, t1, t2, b, v0, v, w, a);
      }
    }
  }

  lemma LostInPml4e(c: Config, t1: Tables, t2: Tables, b: nat, v0: nat, v: nat, w: nat, a: nat)
    requires PartOf(IA32E_PML4, b, v0, v, w) && v <= a < w
    requires SameOutside(t1, t2, Start(IA32E_PML4, b), Start(IA32E_PML4, b + 1))
    ensures LostRight(c, t2, IA32E_PML4, v0, a) <==> LostRight(c, t2, IA32E_PML4, v, a)
  {
    hide EndAt, SameOutside, Index, Start, InTheWay;
    if LostRight(c, t2, IA32E_PML4, v0, a) {
      var a0: nat :| v0 <= a0 < a && InTheWay(c, t2, IA32E_PML4, a0, a);
      if a0 < v {
        EarlierPml4e(c, t1, t2, b, v0, v, w, a0, a);
      }
    }
  }

  lemma LostBeforePml4e(c: Config, t1: Tables, t2: Tables, b: nat, v0: nat, v: nat, w: nat, a: nat)
    requires PartOf(IA32E_PML4, b, v0, v, w) && v0 <= a < v
    requires SameOutside(t1, t2, Start(IA32E_PML4, b), Start(IA32E_PML4, b + 1))
    ensures LostRight(c, t2, IA32E_PML4, v0, a) <==> LostRight(c, t1, IA32E_PML4, v0, a)
  {
    hide EndAt, SameOutside, Index, Start, InTheWay;
    forall a0: nat | v0 <= a0 < a
      ensures InTheWay(c, t2, IA32E_PML4, a0, a) <==> InTheWay(c, t1, IA32E_PML4, a0, a)
    {
      EarlierPml4e(c, t1, t2, b, v0, v, w, a0, a);
    }
  }

  lemma EarlierPml4e(c: Config, t1: Tables, t2: Tables, b: nat, v0: nat, v: nat, w: nat, a0: nat, a: nat)
    requires PartOf(IA32E_PML4, b, v0, v, w) && v0 <= a0 < v
    requires SameOutside(t1, t2, Start(IA32E_PML4, b), Start(IA32E_PML4, b + 1))
    ensures EndAt(c, t2, IA32E_PML4, a0) == EndAt(c, t1, IA32E_PML4, a0)
    ensures InTheWay(c, t2, IA32E_PML4, a0, a) <==> InTheWay(c, t1, IA32E_PML4, a0, a)
    ensures v <= a < w ==> !InTheWay(c, t2, IA32E_PML4, a0, a)
  {
    hide SameOutside, EndAt;
    BlockOf(IA32E_PML4, a0, b);
    EndOtherBlock(c, t1, t2, IA32E_PML4, b, a0);
    BlockOf(IA32E_PML4, a, b);
    ChildIndex(IA32E_PML4, a);
    ChildIndex(IA32E_PML4, a0);
  }

  // ---- Turns of the loops that add ----

  /** A table has done its work on [v0, v) of an establishing request. */
  ghost predicate AddDone(c: Config, t: Tables, t': Tables, level: Level, page: nat, v0: nat, v: nat, req: Request, prot: Prot) {
    WorkDone(c, t, t', level, page, v0, v, req) && RightsDone(c, t', level, v0, v, prot)
  }

  ghost predicate BlockAddDone(c: Config, t: Tables, t': Tables, level: Level, b: nat, v: nat, w: nat, req: Request, prot: Prot) {
    BlockWorkDone(c, t, t', level, b, v, w, req) && RightsDone(c, t', level, v, w, prot)
  }

  lemma AroundBlock(c: Config, t: Tables, t': Tables, level: Level, b: nat, v: nat, w: nat, req: Request)
    requires BlockWorkDone(c, t, t', level, b, v, w, req)
    ensures SameOutside(t, t', Start(level, b), Start(level, b + 1))
  {
  }

  lemma NothingAdded(c: Config, t: Tables, level: Level, page: nat, v: nat, w: nat, req: Request, prot: Prot)
    requires TableOk(c, t, level, page) && w <= v
    ensures AddDone(c, t, t, level, page, v, w, req, prot) && AtHead(level, v, v) && Effective(c, t, level, v, v, prot, prot)
  {
    hide Ok, WorkDone;
    NoWork(c, t, level, page, v, w, req);
  }

  lemma AddTurn(c: Config, t: Tables, t1: Tables, t2: Tables, level: Level, page: nat, v0: nat, v: nat, v1: nat,
                req: Request, prot: Prot, effective: Prot, effective': Prot)
    requires 0 < level < 3 && Ready(c, t1, level, page, v, v1, req)
    requires v0 <= v && AtHead(level, v0, v) && Start(level, PTRS_PER_TABLE * page) <= v0
    requires AddDone(c, t, t1, level, page, v0, v, req, prot) && Effective(c, t1, level, v0, v, prot, effective)
    requires BlockAddDone(c, t1, t2, level, Index(level, v), v, BlockEnd(level, v, v1), req, effective)
    requires effective' == if IsMade(c, t2, level, v) then TweakExeRight(c.ops, effective) else effective
    ensures var w := BlockEnd(level, v, v1);
            && v < w && AddDone(c, t, t2, level, page, v0, w, req, prot) && Effective(c, t2, level, v0, w, prot, effective')
            && (w < v1 ==>
                  && Ready(c, t2, level, page, w, v1, req) && AtHead(level, v0, w)
                  && Index(level, w) == Index(level, v) + 1 < PTRS_PER_TABLE * page + PTRS_PER_TABLE)
  {
    hide Ready, WorkDone, BlockWorkDone, RightsDone, Effective, IsMade, AtHead, TablePart;
    PartInTable(c, t1, level, page, v0, v, v1, req);
    AroundBlock(c, t1, t2, level, Index(level, v), v, BlockEnd(level, v, v1), req);
    WorkTurn(c, t, t1, t2, level, page, v0, v, v1, req);
    RightsTurn(c, t1, t2, level, Index(level, v), v0, v, BlockEnd(level, v, v1), prot, effective, effective');
  }

  lemma RootAddTurn(c: Config, t: Tables, t1: Tables, t2: Tables, v0: nat, v: nat, v1: nat, req: Request, prot: Prot)
    requires Ready(c, t1, IA32E_PML4, 0, v, v1, req) && v0 <= v && AtHead(IA32E_PML4, v0, v)
    requires AddDone(c, t, t1, IA32E_PML4, 0, v0, v, req, prot)
    requires BlockAddDone(c, t1, t2, IA32E_PML4, Index(IA32E_PML4, v), v, BlockEnd(IA32E_PML4, v, v1), req, prot)
    ensures var w := BlockEnd(IA32E_PML4, v, v1);
            && v < w && AddDone(c, t, t2, IA32E_PML4, 0, v0, w, req, prot)
            && (w < v1 ==> Ready(c, t2, IA32E_PML4, 0, w, v1, req) && AtHead(IA32E_PML4, v0, w))
  {
    hide Ready, WorkDone, BlockWorkDone, RightsDone, AtHead, PartOf;
    PartHere(c, t1, v0, v, v1, req);
    AroundBlock(c, t1, t2, IA32E_PML4, Index(IA32E_PML4, v), v, BlockEnd(IA32E_PML4, v, v1), req);
    WorkTurn(c, t, t1, t2, IA32E_PML4, 0, v0, v, v1, req);
    RightsOfPml4e(c, t1, t2, Index(IA32E_PML4, v), v0, v, BlockEnd(IA32E_PML4, v, v1), prot);
  }

  lemma RootAdded(c: Config, t: Tables, t': Tables, v0: nat, v1: nat, req: Request, prot: Prot)
    requires WellFormed(c, t) && AddDone(c, t, t', IA32E_PML4, 0, v0, v1, req, prot)
    ensures WellFormed(c, t') && CarriedOut(c, t, t', v0, v1, req) && AllEndsDone(c, t, t', v0, v1, req)
    ensures RightsDone(c, t', IA32E_PML4, v0, v1, prot)
  {
    hide WorkDone, CarriedOut, AllEndsDone, WellFormed;
    RootDone(c, t, t', v0, v1, req);
  }

  /** A large page maps the block of v. */
  lemma LargeTurn(c: Config, t: Tables, level: Level, page: nat, v: nat, v1: nat, req: Request, prot: Prot, paddr: nat)
    requires level == IA32E_PDPT || level == IA32E_PD
    requires Ready(c, t, level, page, v, v1, req) && req.Establish? && c.ops.largePageEnabled
    requires Aligned(level, v) && Start(level, Index(level, v) + 1) <= v1
    requires paddr == PaddrOf(req, v) && Aligned(level, paddr)
    requires prot == req.prot || prot == TweakExeRight(c.ops, req.prot)
    requires Index(level, v) < |t[level]| && !Present(c.ops, t[level][Index(level, v)])
    ensures var b := Index(level, v);
            var t' := SetEntry(t, level, b, Entry(paddr, TweakExeRight(c.ops, prot) + PAGE_PS));
            BlockAddDone(c, t, t', level, b, v, BlockEnd(level, v, v1), req, prot) && IsMade(c, t', level, v)
  {
    var b, e := Index(level, v), Entry(paddr, TweakExeRight(c.ops, prot) + PAGE_PS);
    LargeBits(c.ops, level, req.prot, prot);
    assert MapsPage(level, e);
    hide Ready, BlockWorkDone, NewBits, TweakExeRight, MapsPage;
    NewPageTurn(c, t, level, page, v, v1, req, e);
    NewPageOk(c, t, level, page, v, v1, req, e);
    BlockBounds(c, t, level, page, v, v1, req);
    RightsOfPage(c, SetEntry(t, level, b, e), level, b, v, BlockEnd(level, v, v1), prot);
  }

  /** The work on the block of v has been done below. */
  lemma AddDescend(c: Config, t1: Tables, t2: Tables, t3: Tables, level: Level, page: nat, v: nat, v1: nat, req: Request, prot: Prot)
    requires level < 3 && Ready(c, t2, level, page, v, v1, req)
    requires var k := Index(level, v);
             && HandedDown(c, t1, t2, level, k, v, BlockEnd(level, v, v1), req)
             && Updated(c, t1, t2, level, k, k + 1, v, v, req)
             && t3[level] == t2[level]
             && AddDone(c, t2, t3, level + 1, k, v, BlockEnd(level, v, v1), req, prot)
    ensures BlockAddDone(c, t1, t3, level, Index(level, v), v, BlockEnd(level, v, v1), req, prot)
    ensures !IsMade(c, t3, level, v)
  {
    assert Index(level, v) < |t2[level]| && ReferencesTable(c, level, t2[level][Index(level, v)]);
    hide Ready, Updated, HandedDown, WorkDone, BlockWorkDone, RightsDone, IsMade;
    DescendTurn(c, t1, t2, t3, level, page, v, v1, req);
    BlockBounds(c, t2, level, page, v, v1, req);
    RightsThroughTable(c, t3, level, Index(level, v), v, BlockEnd(level, v, v1), prot);
  }

  lemma AddPteDone(c: Config, t: Tables, t1: Tables, page: nat, v0: nat, v: nat, v1: nat, req: Request, e: Entry)
    requires Ready(c, t1, IA32E_PT, page, v, v1, req) && req.Establish? && v0 <= v && AtHead(IA32E_PT, v0, v)
    requires e.paddr == PaddrOf(req, v) && (e.prot == req.prot || e.prot == TweakExeRight(c.ops, req.prot))
    requires AddDone(c, t, t1, IA32E_PT, page, v0, v, req, e.prot)
    ensures var k := Index(IA32E_PT, v);
            && PteBounds(page, v, v1) && k < |t1[IA32E_PT]| && !Present(c.ops, t1[IA32E_PT][k])
            && AddDone(c, t, SetEntry(t1, IA32E_PT, k, e), IA32E_PT, page, v0, v + PTE_SIZE, req, e.prot)
            && (v + PTE_SIZE < v1 ==>
                  Ready(c, SetEntry(t1, IA32E_PT, k, e), IA32E_PT, page, v + PTE_SIZE, v1, req) && AtHead(IA32E_PT, v0, v + PTE_SIZE))
  {
    hide Ready, WorkDone, BlockWorkDone, RightsDone, AtHead, TweakExeRight;
    var k := Index(IA32E_PT, v);
    AddPteTurn(c, t1, page, v, v1, req, e);
    WorkTurn(c, t, t1, SetEntry(t1, IA32E_PT, k, e), IA32E_PT, page, v0, v, v1, req);
    SetEntrySame(t1, IA32E_PT, k, e);
    RightsOfPte(c, t1, SetEntry(t1, IA32E_PT, k, e), k, v0, v, e.prot);
  }
}
