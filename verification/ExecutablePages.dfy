/** The sizes and rights of pages by address, read off what the engine has done to the ends of walks; and
    when a modification leaves an executable large page behind, for tables that had none: the execute-right
    callbacks keep additions and splits clear of them, modifications are not checked. */
module ExecutablePages {
  import opened PageEntry
  import opened Paging
  import opened PagingSteps
  import opened PagingRanges
  import opened PageSizes
  import opened PageRights
  import opened PageTree
  import opened Wrappers

  ghost predicate IsLargeLeaf(c: Config, t: Tables, leaf: Leaf) {
    IsLeaf(c, t, leaf) && leaf.level < IA32E_PT
  }

  ghost predicate ExecutableLarge(c: Config, t: Tables) {
    exists leaf: Leaf :: IsLargeLeaf(c, t, leaf) && EXE_BIT in t[leaf.level][leaf.index].prot
  }

  /** The range covers a 2-MByte block that a large page maps: a whole large page, or a part of a
      1-GByte page that is split. */
  ghost predicate CoversLargePart(c: Config, t: Tables, v0: nat, v1: nat) {
    exists leaf: Leaf, k: nat :: IsLargeLeaf(c, t, leaf) && Covers(leaf, Start(IA32E_PD, k)) && InRange(k, v0, v1)
  }

  predicate InRange(k: nat, v0: nat, v1: nat) {
    v0 <= Start(IA32E_PD, k) && Start(IA32E_PD, k + 1) <= v1
  }

  // ---- Ends of walks and leaves ----

  lemma {:induction false} EndFromAbove(c: Config, t: Tables, level: Level, k: nat, a: nat)
    requires Reached(c, t, level, k) && Start(level, k) <= a < Start(level, k + 1)
    ensures EndAt(c, t, IA32E_PML4, a) == EndAt(c, t, level, a)
    decreases level
  {
    if level > 0 {
      BlockOf(level, a, k);
      ChildIndex(level - 1, a);
      BlockOf(level - 1, a, k / PTRS_PER_TABLE);
      EndFromAbove(c, t, level - 1, k / PTRS_PER_TABLE, a);
    }
  }

  /** The walk for an address ends at the leaf that covers it, with the leaf's bits. */
  lemma EndOfLeaf(c: Config, t: Tables, leaf: Leaf, a: nat)
    requires IsLeaf(c, t, leaf) && Covers(leaf, a)
    ensures EndAt(c, t, IA32E_PML4, a) == WalkEnd(leaf.level, Some(t[leaf.level][leaf.index].prot))
  {
    EndFromAbove(c, t, leaf.level, leaf.index, a);
    BlockOf(leaf.level, a, leaf.index);
  }

  /** Where a walk ends at a page there is such a leaf. */
  lemma {:induction false} LeafOfEnd(c: Config, t: Tables, level: Level, a: nat) returns (leaf: Leaf)
    requires WellFormed(c, t) && Reached(c, t, level, Index(level, a)) && EndAt(c, t, level, a).prot.Some?
    ensures IsLeaf(c, t, leaf) && Covers(leaf, a)
    ensures EndAt(c, t, level, a) == WalkEnd(leaf.level, Some(t[leaf.level][leaf.index].prot))
    decreases 3 - level
  {
    var i := Index(level, a);
    BlockOf(level, a, i);
    if MapsPage(level, t[level][i]) {
      leaf := Leaf(level, i);
    } else {
      ReachedReference(c, t, level, i);
      ChildIndex(level, a);
      leaf := LeafOfEnd(c, t, level + 1, a);
    }
  }

  lemma RootIsReached(c: Config, t: Tables, a: nat)
    requires WellFormed(c, t) && a < ADDRESS_LIMIT
    ensures Reached(c, t, IA32E_PML4, Index(IA32E_PML4, a))
  {
  }

  /** A large page covers a 2-MByte block whole. */
  lemma CoversPde(leaf: Leaf, a: nat)
    requires leaf.level < IA32E_PT && Covers(leaf, a)
    ensures Covers(leaf, Start(IA32E_PD, Index(IA32E_PD, a)))
  {
    BlockInBlock(leaf.level, IA32E_PD, leaf.index, a);
    BlockOf(IA32E_PD, a, Index(IA32E_PD, a));
  }

  lemma LeafBelowLimit(c: Config, t: Tables, leaf: Leaf, a: nat)
    requires WellFormed(c, t) && IsLeaf(c, t, leaf) && Covers(leaf, a)
    ensures a < ADDRESS_LIMIT && 0 < leaf.level
  {
    ReachedOk(c, t, leaf.level, leaf.index);
  }

  // ---- Rights by address ----

  /** The range covers only part of the 2-MByte block of an address, so a large page there is split into
      4-KByte pages. */
  predicate IsSplit(a: nat, v0: nat, v1: nat) {
    var k := Index(IA32E_PD, a);
    v0 < v1 && v0 < Start(IA32E_PD, k + 1) && Start(IA32E_PD, k) < v1 && !InRange(k, v0, v1)
  }

  /** Every page after a modification or deletion of a range of pages. Its bits are those of the page that was
      there, changed as asked for inside the range; but a 4-KByte page that has come from a large one has
      no page-size bit, and under the execute-right callbacks it was made executable first. */
  lemma RightsAfter(c: Config, t: Tables, t': Tables, v0: nat, v1: nat, req: Request, a: nat)
    requires AllEndsDone(c, t, t', v0, v1, req) && !req.Establish? && a < ADDRESS_LIMIT
    requires v0 % PTE_SIZE == 0 && v1 % PTE_SIZE == 0
    requires EndAt(c, t, IA32E_PML4, a).prot.Some? && EndAt(c, t, IA32E_PML4, a).level > 0
    ensures var e, e' := EndAt(c, t, IA32E_PML4, a), EndAt(c, t', IA32E_PML4, a);
            var split := e.level < IA32E_PT && IsSplit(a, v0, v1);
            && (e'.level == IA32E_PT <==> e.level == IA32E_PT || split)
            && (e'.prot.Some? <==> !(req.Delete? && v0 <= a < v1))
            && (e'.prot.Some? ==> forall bit: nat ::
                  var had := (bit in e.prot.value && !(split && bit == PS_BIT)) || (split && c.ops.mitigated && bit == EXE_BIT);
                  (bit in e'.prot.value <==>
                     if v0 <= a < v1 then bit in req.set_ || (had && bit !in req.clr) else had))
  {
    var e := EndAt(c, t, IA32E_PML4, a);
    assert EndAt(c, t', IA32E_PML4, a) == Changed(c, req, v0, v1, a, e);
    hide AllEndsDone, EndAt;
    BlockOf(IA32E_PDPT, a, Index(IA32E_PDPT, a));
    BlockOf(IA32E_PD, a, Index(IA32E_PD, a));
    BlockOf(IA32E_PT, a, Index(IA32E_PT, a));
    ChangedBits(c, req, v0, v1, a, e);
  }

  lemma {:induction false} ChangedBits(c: Config, req: Request, v0: nat, v1: nat, a: nat, e: WalkEnd)
    requires !req.Establish? && v0 % PTE_SIZE == 0 && v1 % PTE_SIZE == 0 && e.prot.Some? && e.level > 0
    ensures var e' := Changed(c, req, v0, v1, a, e);
            var split := e.level < IA32E_PT && IsSplit(a, v0, v1);
            && (e'.level == IA32E_PT <==> e.level == IA32E_PT || split)
            && (e'.prot.Some? <==> !(req.Delete? && v0 <= a < v1))
            && (e'.prot.Some? ==> forall bit: nat ::
                  var had := (bit in e.prot.value && !(split && bit == PS_BIT)) || (split && c.ops.mitigated && bit == EXE_BIT);
                  (bit in e'.prot.value <==>
                     if v0 <= a < v1 then bit in req.set_ || (had && bit !in req.clr) else had))
    decreases 3 - e.level
  {
    MeetsOrNot(v0, v1, a, e.level);
    hide Meets, Within, IsSplit;
    if Meets(e.level, a, v0, v1) && e.level < IA32E_PT && !Within(e.level, a, v0, v1) {
      MeetsOrNot(v0, v1, a, e.level + 1);
      ChangedBits(c, req, v0, v1, a, WalkEnd(e.level + 1, Some(PartBits(c.ops, e.level, e.prot.value))));
    }
  }

  /** What a range of pages means for the block of an address. */
  lemma MeetsOrNot(v0: nat, v1: nat, a: nat, level: Level)
    requires v0 % PTE_SIZE == 0 && v1 % PTE_SIZE == 0 && level > 0
    ensures v0 <= a < v1 ==> Meets(level, a, v0, v1)
    ensures Within(level, a, v0, v1) ==> v0 <= a < v1
    ensures level == IA32E_PT ==> (Meets(level, a, v0, v1) <==> v0 <= a < v1)
    ensures level < IA32E_PT && (!Meets(level, a, v0, v1) || Within(level, a, v0, v1)) ==> !IsSplit(a, v0, v1)
    ensures level == IA32E_PD && Meets(level, a, v0, v1) && !Within(level, a, v0, v1) ==> IsSplit(a, v0, v1)
  {
    BlockOf(level, a, Index(level, a));
    BlockOf(IA32E_PD, a, Index(IA32E_PD, a));
    if level < IA32E_PT {
      BlockInBlock(level, IA32E_PD, Index(level, a), a);
    } else {
      PagesApart(v0, v1, a);
    }
  }

  lemma PagesApart(v0: nat, v1: nat, a: nat)
    requires v0 % PTE_SIZE == 0 && v1 % PTE_SIZE == 0
    ensures Meets(IA32E_PT, a, v0, v1) <==> v0 <= a < v1
  {
  }

  // ---- Sizes of new pages ----

  /** A new page is the largest that fits at or below the level where the walk ended before: a large one only
      where large pages are enabled, the range covers its block, and both addresses are aligned. */
  lemma NewPageSize(c: Config, t: Tables, t': Tables, v0: nat, v1: nat, req: Request, a: nat)
    requires AllEndsDone(c, t, t', v0, v1, req) && req.Establish? && v0 <= a < v1 && a < ADDRESS_LIMIT
    requires EndAt(c, t, IA32E_PML4, a).prot.None?
    ensures var e, e' := EndAt(c, t, IA32E_PML4, a), EndAt(c, t', IA32E_PML4, a);
            && e'.prot.Some? && e.level <= e'.level && 0 < e'.level
            && (e'.level < IA32E_PT ==> PageFits(c, req, e'.level, a, v0, v1))
            && (forall l: Level :: e.level <= l < e'.level ==> !PageFits(c, req, l, a, v0, v1))
            && (!c.ops.largePageEnabled ==> e'.level == IA32E_PT)
  {
    var e := EndAt(c, t, IA32E_PML4, a);
    FirstFit(c, req, v0, v1, a, e);
    FirstFit(c, Tweaked(c, req), v0, v1, a, e);
    hide EndAt, Changed, Tweaked, PageFits;
    assert Ended(c, req, v0, v1, a, e, EndAt(c, t', IA32E_PML4, a));
    forall l: Level
      ensures PageFits(c, Tweaked(c, req), l, a, v0, v1) == PageFits(c, req, l, a, v0, v1)
      ensures PageFits(c, req, l, a, v0, v1) ==> c.ops.largePageEnabled
    {
      FitsTweaked(c, req, l, a, v0, v1);
      if PageFits(c, req, l, a, v0, v1) {
        FitsOnlyLarge(c, req, l, a, v0, v1);
      }
    }
  }

  lemma FitsOnlyLarge(c: Config, req: Request, level: Level, a: nat, v0: nat, v1: nat)
    requires req.Establish? && PageFits(c, req, level, a, v0, v1)
    ensures c.ops.largePageEnabled
  {
  }

  lemma {:induction false} FirstFit(c: Config, req: Request, v0: nat, v1: nat, a: nat, e: WalkEnd)
    requires req.Establish? && v0 <= a < v1 && e.prot.None?
    ensures var e' := Changed(c, req, v0, v1, a, e);
            && e'.prot.Some? && e.level <= e'.level && 0 < e'.level
            && (e'.level < IA32E_PT ==> PageFits(c, req, e'.level, a, v0, v1))
            && (forall l: Level :: e.level <= l < e'.level ==> !PageFits(c, req, l, a, v0, v1))
    decreases 3 - e.level
  {
    BlockOf(e.level, a, Index(e.level, a));
    assert Meets(e.level, a, v0, v1);
    hide Meets;
    if e.level < IA32E_PT && !PageFits(c, req, e.level, a, v0, v1) {
      FirstFit(c, req, v0, v1, a, WalkEnd(e.level + 1, None));
    }
  }

  /** The same condition before the call: among the addresses that come first there is one that a large page
      will map, of 2 MByte in the 1-GByte block of a, or of 1 GByte. */
  ghost predicate WillLoseRight(c: Config, t: Tables, v0: nat, v1: nat, req: Request, a: nat) {
    exists a0: nat :: v0 <= a0 < a && WillBeInTheWay(c, t, v0, v1, req, a0, a)
  }

  ghost predicate WillBeInTheWay(c: Config, t: Tables, v0: nat, v1: nat, req: Request, a0: nat, a: nat) {
    var level := Changed(c, req, v0, v1, a0, EndAt(c, t, IA32E_PML4, a0)).level;
    || (level == IA32E_PD && Index(IA32E_PDPT, a0) == Index(IA32E_PDPT, a))
    || (level == IA32E_PDPT && Index(IA32E_PML4, a0) == Index(IA32E_PML4, a))
  }

  lemma RightIsLost(c: Config, t: Tables, t': Tables, v0: nat, v1: nat, req: Request, a: nat)
    requires AllEndsDone(c, t, t', v0, v1, req) && req.Establish? && v0 <= a < v1 <= ADDRESS_LIMIT
    requires forall a0: nat :: v0 <= a0 < v1 ==> EndAt(c, t, IA32E_PML4, a0).prot.None?
    ensures LostRight(c, t', IA32E_PML4, v0, a) <==> WillLoseRight(c, t, v0, v1, req, a)
  {
    forall a0: nat | v0 <= a0 < a
      ensures InTheWay(c, t', IA32E_PML4, a0, a) <==> WillBeInTheWay(c, t, v0, v1, req, a0, a)
    {
      var e := EndAt(c, t, IA32E_PML4, a0);
      assert Ended(c, req, v0, v1, a0, e, EndAt(c, t', IA32E_PML4, a0));
      FirstFit(c, req, v0, v1, a0, e);
      FirstFit(c, Tweaked(c, req), v0, v1, a0, e);
      SameLevel(c, req, v0, v1, a0, e);
    }
    hide InTheWay, WillBeInTheWay;
  }

  lemma {:induction false} SameLevel(c: Config, req: Request, v0: nat, v1: nat, a: nat, e: WalkEnd)
    requires req.Establish?
    ensures Changed(c, Tweaked(c, req), v0, v1, a, e).level == Changed(c, req, v0, v1, a, e).level
    decreases 3 - e.level
  {
    FitsTweaked(c, req, e.level, a, v0, v1);
    if e.level < IA32E_PT {
      SameLevel(c, req, v0, v1, a, WalkEnd(e.level + 1, None));
    }
  }

  /** A new page has the bits asked for, and a large one the page-size bit; but under the execute-right
      callbacks a large one is not executable, and a 4-KByte one is not if a large page made before it is in
      the way. */
  lemma NewPageBits(c: Config, t: Tables, t': Tables, v0: nat, v1: nat, req: Request, a: nat)
    requires AllEndsDone(c, t, t', v0, v1, req) && req.Establish? && v0 <= a < v1 && a < ADDRESS_LIMIT
    requires v1 <= ADDRESS_LIMIT && forall a0: nat :: v0 <= a0 < v1 ==> EndAt(c, t, IA32E_PML4, a0).prot.None?
    requires RightsDone(c, t', IA32E_PML4, v0, v1, req.prot)
    ensures var e' := EndAt(c, t', IA32E_PML4, a);
            && e'.prot.Some?
            && forall bit: nat :: bit in e'.prot.value <==>
                 if bit == PS_BIT && e'.level < IA32E_PT then true
                 else if bit == EXE_BIT && c.ops.mitigated && (e'.level < IA32E_PT || WillLoseRight(c, t, v0, v1, req, a)) then false
                 else bit in req.prot
  {
    RightIsLost(c, t, t', v0, v1, req, a);
    hide WillLoseRight;
    var e, e' := EndAt(c, t, IA32E_PML4, a), EndAt(c, t', IA32E_PML4, a);
    assert Ended(c, req, v0, v1, a, e, e');
    LargeBitsOf(c, req, v0, v1, a, e);
    LargeBitsOf(c, Tweaked(c, req), v0, v1, a, e);
    hide EndAt, Changed, LostRight;
  }

  lemma {:induction false} LargeBitsOf(c: Config, req: Request, v0: nat, v1: nat, a: nat, e: WalkEnd)
    requires req.Establish? && v0 <= a < v1 && e.prot.None?
    ensures var e' := Changed(c, req, v0, v1, a, e);
            e'.prot.Some? && (e'.level < IA32E_PT ==> forall bit: nat ::
              bit in e'.prot.value <==> bit == PS_BIT || (bit in req.prot && !(bit == EXE_BIT && c.ops.mitigated)))
    decreases 3 - e.level
  {
    BlockOf(e.level, a, Index(e.level, a));
    if e.level < IA32E_PT && !PageFits(c, req, e.level, a, v0, v1) {
      LargeBitsOf(c, req, v0, v1, a, WalkEnd(e.level + 1, None));
    }
  }

  // ---- The exact condition ----

  /** After a request on tables without executable large pages there is one if and only if the request
      is a modification that sets the execute bit and covers a 2-MByte block of a large page. */
  lemma ExecutableIff(c: Config, t: Tables, t': Tables, v0: nat, v1: nat, req: Request)
    requires WellFormed(c, t) && WellFormed(c, t') && !ExecutableLarge(c, t) && !req.Establish?
    requires v0 % PTE_SIZE == 0 && v1 % PTE_SIZE == 0
    requires AllEndsDone(c, t, t', v0, v1, req)
    ensures ExecutableLarge(c, t') <==> req.Modify? && EXE_BIT in req.set_ && CoversLargePart(c, t, v0, v1)
  {
    hide WellFormed, AllEndsDone;
    if ExecutableLarge(c, t') {
      BecameExecutable(c, t, t', v0, v1, req);
    }
    if req.Modify? && EXE_BIT in req.set_ && CoversLargePart(c, t, v0, v1) {
      BecomesExecutable(c, t, t', v0, v1, req);
    }
  }

  lemma BecameExecutable(c: Config, t: Tables, t': Tables, v0: nat, v1: nat, req: Request)
    requires WellFormed(c, t) && WellFormed(c, t') && !ExecutableLarge(c, t) && !req.Establish?
    requires v0 % PTE_SIZE == 0 && v1 % PTE_SIZE == 0
    requires AllEndsDone(c, t, t', v0, v1, req) && ExecutableLarge(c, t')
    ensures req.Modify? && EXE_BIT in req.set_ && CoversLargePart(c, t, v0, v1)
  {
    hide Changed, EndAt, WellFormed;
    var leaf: Leaf :| IsLargeLeaf(c, t', leaf) && EXE_BIT in t'[leaf.level][leaf.index].prot;
    var a := First(leaf);
    BlockOf(leaf.level, a, leaf.index);
    StartMonotone(leaf.level, leaf.index, leaf.index + 1);
    EndOfLeaf(c, t', leaf, a);
    LeafBelowLimit(c, t', leaf, a);
    RootIsReached(c, t, a);
    assert Ended(c, req, v0, v1, a, EndAt(c, t, IA32E_PML4, a), EndAt(c, t', IA32E_PML4, a));
    hide AllEndsDone;
    NothingStays(c, req, v0, v1, a, EndAt(c, t, IA32E_PML4, a));
    var before := LeafOfEnd(c, t, IA32E_PML4, a);
    LeafBelowLimit(c, t, before, a);
    RightsAfter(c, t, t', v0, v1, req, a);
    hide Ended, Covers, IsLeaf;
    assert IsLargeLeaf(c, t, before) && EXE_BIT !in t[before.level][before.index].prot;
    assert EXE_BIT in EndAt(c, t', IA32E_PML4, a).prot.value;
    assert v0 <= a < v1 && !IsSplit(a, v0, v1) && req.Modify? && EXE_BIT in req.set_;
    CoversPde(before, a);
    NotSplitInRange(a, v0, v1);
  }

  lemma NotSplitInRange(a: nat, v0: nat, v1: nat)
    requires v0 <= a < v1 && !IsSplit(a, v0, v1)
    ensures InRange(Index(IA32E_PD, a), v0, v1)
  {
    BlockOf(IA32E_PD, a, Index(IA32E_PD, a));
  }

  lemma NothingStays(c: Config, req: Request, v0: nat, v1: nat, a: nat, e: WalkEnd)
    requires !req.Establish?
    ensures e.prot.None? ==> Changed(c, req, v0, v1, a, e) == e
  {
  }

  lemma BecomesExecutable(c: Config, t: Tables, t': Tables, v0: nat, v1: nat, req: Request)
    requires WellFormed(c, t) && WellFormed(c, t')
    requires v0 % PTE_SIZE == 0 && v1 % PTE_SIZE == 0
    requires AllEndsDone(c, t, t', v0, v1, req)
    requires req.Modify? && EXE_BIT in req.set_ && CoversLargePart(c, t, v0, v1)
    ensures ExecutableLarge(c, t')
  {
    hide Changed, AllEndsDone, WellFormed, EndAt;
    var leaf: Leaf, k: nat :| IsLargeLeaf(c, t, leaf) && Covers(leaf, Start(IA32E_PD, k)) && InRange(k, v0, v1);
    var a := Start(IA32E_PD, k);
    BlockOf(IA32E_PD, a, k);
    EndOfLeaf(c, t, leaf, a);
    LeafBelowLimit(c, t, leaf, a);
    RightsAfter(c, t, t', v0, v1, req, a);
    RootIsReached(c, t', a);
    var after := LeafOfEnd(c, t', IA32E_PML4, a);
  }

  // ---- A modification that does it ----

  const EPT_WITH_CALLBACKS := Config(InitEptMemOps(true, false), 0x1000, 0x2000, 0x3000, 0, PDPTE_SIZE, false)

  /** A table page whose first entry is given. */
  function FirstOf(first: Entry, rest: Entry): (s: seq<Entry>)
    ensures |s| == PTRS_PER_TABLE && s[0] == first
    ensures forall i :: 0 < i < PTRS_PER_TABLE ==> s[i] == rest
  {
    seq(PTRS_PER_TABLE, i => if i == 0 then first else rest)
  }

  const LARGE_PAGE: Entry := Entry(0, EPT_RD + EPT_WR + PAGE_PS)

  /** One readable and writable 2-MByte page at address 0. */
  function OneLargePage(): (t: Tables)
  {
    var c := EPT_WITH_CALLBACKS;
    var tables: seq<seq<Entry>> :=
      [ FirstOf(TableEntry(c, IA32E_PML4, 0), Entry(0, {})),
        FirstOf(TableEntry(c, IA32E_PDPT, 0), Sanitized(c)),
        FirstOf(LARGE_PAGE, Sanitized(c)),
        seq(PTRS_PER_TABLE * PTRS_PER_TABLE, _ => Sanitized(c)) ];
    tables
  }

  /** mmu_modify_or_del accepts a request to make that page executable, and it is large afterwards. */
  lemma ModifiedLargePageExecutable()
    ensures var c, t, req := EPT_WITH_CALLBACKS, OneLargePage(), Modify(EPT_EXE, {});
            && WellFormed(c, t) && !ExecutableLarge(c, t)
            && Pml4Usable(c, t, 0, PDE_SIZE, req) && Allowed(c, req, 0, PDE_SIZE) && AdmissibleOn(c, t, 0, PDE_SIZE, req)
            && forall t': Tables :: WellFormed(c, t') && AllEndsDone(c, t, t', 0, PDE_SIZE, req) ==> ExecutableLarge(c, t')
  {
    var c, t, req := EPT_WITH_CALLBACKS, OneLargePage(), Modify(EPT_EXE, {});
    OneLargePageOk();
    forall t': Tables | WellFormed(c, t') && AllEndsDone(c, t, t', 0, PDE_SIZE, req)
      ensures ExecutableLarge(c, t')
    {
      assert InRange(0, 0, PDE_SIZE) && Covers(Leaf(IA32E_PD, 0), Start(IA32E_PD, 0));
      BecomesExecutable(c, t, t', 0, PDE_SIZE, req);
    }
  }

  lemma OneLargePageOk()
    ensures var c, t, req := EPT_WITH_CALLBACKS, OneLargePage(), Modify(EPT_EXE, {});
            && WellFormed(c, t) && !ExecutableLarge(c, t) && IsLargeLeaf(c, t, Leaf(IA32E_PD, 0))
            && Pml4Usable(c, t, 0, PDE_SIZE, req) && Allowed(c, req, 0, PDE_SIZE) && AdmissibleOn(c, t, 0, PDE_SIZE, req)
  {
    OneLargePageWellFormed();
    OneLargePageLeaves();
    OneLargePageAdmissible();
  }

  lemma EntriesPresent()
    ensures var c := EPT_WITH_CALLBACKS;
            && !Present(c.ops, Sanitized(c)) && !Present(c.ops, Entry(0, {}))
            && Present(c.ops, LARGE_PAGE) && VisiblyPresent(c.ops, LARGE_PAGE.prot)
            && (forall level: Level, p: nat :: level < 3 ==>
                  Present(c.ops, TableEntry(c, level, p)) && !Large(TableEntry(c, level, p)))
  {
    var c := EPT_WITH_CALLBACKS;
    SanitizedIsAbsent(c);
    assert 0 in LARGE_PAGE.prot * c.ops.presentMask && 0 in Visible(c.ops, LARGE_PAGE.prot) * c.ops.presentMask;
    assert {} * c.ops.presentMask == {};
    forall level: Level, p: nat | level < 3
      ensures Present(c.ops, TableEntry(c, level, p)) && !Large(TableEntry(c, level, p))
    {
      DefaultRightIsPresent(c.ops, TableEntry(c, level, p).paddr);
    }
  }

  lemma OneLargePageWellFormed()
    ensures WellFormed(EPT_WITH_CALLBACKS, OneLargePage())
  {
    var c, t := EPT_WITH_CALLBACKS, OneLargePage();
    EntriesPresent();
    hide Present, VisiblyPresent, Visible;
    forall k | 0 <= k < PTRS_PER_TABLE
      ensures Ok(c, t, IA32E_PD, k)
    {
    }
    assert TableOk(c, t, IA32E_PD, 0);
    forall k | 0 <= k < PTRS_PER_TABLE
      ensures Ok(c, t, IA32E_PDPT, k)
    {
    }
    assert TableOk(c, t, IA32E_PDPT, 0);
    forall k | 0 <= k < PTRS_PER_TABLE
      ensures Ok(c, t, IA32E_PML4, k)
    {
    }
  }

  lemma OneLargePageLeaves()
    ensures var c, t := EPT_WITH_CALLBACKS, OneLargePage(); !ExecutableLarge(c, t) && IsLargeLeaf(c, t, Leaf(IA32E_PD, 0))
  {
    var c, t := EPT_WITH_CALLBACKS, OneLargePage();
    EntriesPresent();
    hide Present;
    assert Reached(c, t, IA32E_PML4, 0);
    assert Reached(c, t, IA32E_PDPT, 0);
    forall leaf: Leaf | IsLargeLeaf(c, t, leaf)
      ensures EXE_BIT !in t[leaf.level][leaf.index].prot
    {
    }
  }

  lemma OneLargePageAdmissible()
    ensures var c, t, req := EPT_WITH_CALLBACKS, OneLargePage(), Modify(EPT_EXE, {});
            Pml4Usable(c, t, 0, PDE_SIZE, req) && Allowed(c, req, 0, PDE_SIZE) && AdmissibleOn(c, t, 0, PDE_SIZE, req)
  {
    var c, t, req := EPT_WITH_CALLBACKS, OneLargePage(), Modify(EPT_EXE, {});
    EntriesPresent();
    OneLargePageWellFormed();
    OneLargePageLeaves();
    forall a | 0 <= a < PDE_SIZE
      ensures Admissible(c, req, Translate(c, t, a))
    {
      LeafTranslates(c, t, Leaf(IA32E_PD, 0), a);
      assert 0 in Visible(c.ops, Modified(Visible(c.ops, LARGE_PAGE.prot), req.set_, req.clr)) * c.ops.presentMask;
    }
  }

  // ---- An addition that loses the execute right ----

  /** mmu_add is asked to map 2 MByte and 4 KByte of executable memory in empty tables: the last page is a
      4-KByte page and not executable. */
  lemma LastPageNotExecutable(t: Tables)
    requires Sized(EPT_WITH_CALLBACKS, t)
    requires forall i :: 0 <= i < PTRS_PER_TABLE ==> t[IA32E_PML4][i] == Entry(0, {})
    ensures var c, req, end := EPT_WITH_CALLBACKS, Establish(0, 0, EPT_RWX), PDE_SIZE + PTE_SIZE;
            && WellFormed(c, t) && Allowed(c, req, 0, end) && AdmissibleOn(c, t, 0, end, req)
            && forall t': Tables :: AllEndsDone(c, t, t', 0, end, req) && RightsDone(c, t', IA32E_PML4, 0, end, EPT_RWX) ==>
                 EndAt(c, t', IA32E_PML4, PDE_SIZE) == WalkEnd(IA32E_PT, Some(EPT_RD + EPT_WR))
  {
    var c, req, end := EPT_WITH_CALLBACKS, Establish(0, 0, EPT_RWX), PDE_SIZE + PTE_SIZE;
    ClearedRoot(c, t);
    assert 0 in Visible(c.ops, EPT_RWX) * c.ops.presentMask;
    forall a: nat | a < end
      ensures EndAt(c, t, IA32E_PML4, a) == WalkEnd(IA32E_PML4, None)
    {
      assert {} * c.ops.presentMask == {};
    }
    FreshSizes();
    hide EndAt, Changed, WellFormed;
    forall t': Tables | AllEndsDone(c, t, t', 0, end, req) && RightsDone(c, t', IA32E_PML4, 0, end, EPT_RWX)
      ensures EndAt(c, t', IA32E_PML4, PDE_SIZE) == WalkEnd(IA32E_PT, Some(EPT_RD + EPT_WR))
    {
      NewPageBits(c, t, t', 0, end, req, PDE_SIZE);
      assert WillBeInTheWay(c, t, 0, end, req, 0, PDE_SIZE);
      assert Ended(c, req, 0, end, PDE_SIZE, WalkEnd(IA32E_PML4, None), EndAt(c, t', IA32E_PML4, PDE_SIZE));
      SameLevel(c, req, 0, end, PDE_SIZE, WalkEnd(IA32E_PML4, None));
      assert EndAt(c, t', IA32E_PML4, PDE_SIZE).prot.value == EPT_RD + EPT_WR;
    }
  }

  lemma FreshSizes()
    ensures var c, req, end := EPT_WITH_CALLBACKS, Establish(0, 0, EPT_RWX), PDE_SIZE + PTE_SIZE;
            && Changed(c, req, 0, end, 0, WalkEnd(IA32E_PML4, None)).level == IA32E_PD
            && Changed(c, req, 0, end, PDE_SIZE, WalkEnd(IA32E_PML4, None)).level == IA32E_PT
  {
    var c, req, end := EPT_WITH_CALLBACKS, Establish(0, 0, EPT_RWX), PDE_SIZE + PTE_SIZE;
    assert PageFits(c, req, IA32E_PD, 0, 0, end) && !PageFits(c, req, IA32E_PDPT, 0, 0, end);
    assert !PageFits(c, req, IA32E_PD, PDE_SIZE, 0, end) && !PageFits(c, req, IA32E_PDPT, PDE_SIZE, 0, end);
    assert Meets(IA32E_PD, 0, 0, end) && Meets(IA32E_PD, PDE_SIZE, 0, end);
    assert Meets(IA32E_PDPT, 0, 0, end) && Meets(IA32E_PDPT, PDE_SIZE, 0, end);
    assert Meets(IA32E_PT, PDE_SIZE, 0, end);
    hide PageFits, Meets;
    assert Changed(c, req, 0, end, 0, WalkEnd(IA32E_PDPT, None)) == Changed(c, req, 0, end, 0, WalkEnd(IA32E_PD, None));
    assert Changed(c, req, 0, end, PDE_SIZE, WalkEnd(IA32E_PD, None)) == Changed(c, req, 0, end, PDE_SIZE, WalkEnd(IA32E_PT, None));
    assert Changed(c, req, 0, end, PDE_SIZE, WalkEnd(IA32E_PDPT, None)) == Changed(c, req, 0, end, PDE_SIZE, WalkEnd(IA32E_PD, None));
  }
}
