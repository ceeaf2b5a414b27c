/** Where the walk for an address ends, and with which property bits: the sizes and the rights of pages,
    which translations do not show, before and after a request. */
module PageSizes {
  import opened PageEntry
  import opened Paging
  import opened PagingSteps
  import opened PagingRanges
  import opened Wrappers

  const EXE_BIT: nat := 2

  /** The level of the last entry on the way to an address, and all property bits of the page it maps. */
  datatype WalkEnd = WalkEnd(level: Level, prot: Option<Prot>)

  ghost function EndAt(c: Config, t: Tables, level: Level, a: nat): (e: WalkEnd)
    ensures e.level >= level
    decreases 3 - level
  {
    var i := Index(level, a);
    if i >= |t[level]| || !Present(c.ops, t[level][i]) then WalkEnd(level, None)
    else if MapsPage(level, t[level][i]) then WalkEnd(level, Some(t[level][i].prot))
    else EndAt(c, t, level + 1, a)
  }

  // ---- What a request does to it ----

  /** The block of an address at a level, and how a range meets it. */
  predicate Meets(level: Level, a: nat, v0: nat, v1: nat) {
    v0 < v1 && v0 < Start(level, Index(level, a) + 1) && Start(level, Index(level, a)) < v1
  }

  predicate Within(level: Level, a: nat, v0: nat, v1: nat) {
    v0 <= Start(level, Index(level, a)) && Start(level, Index(level, a) + 1) <= v1
  }

  /** The bits of the parts of a split page: 4-KByte pages have no page-size bit, and under the execute-right
      callbacks they are executable. */
  function PartBits(ops: MemOps, level: Level, prot: Prot): Prot {
    if level == IA32E_PDPT then prot else if ops.mitigated then (prot - PAGE_PS) + EPT_EXE else prot - PAGE_PS
  }

  /** A large page may map the block of an address: the range covers all of it, and its physical address
      is aligned alike. */
  predicate PageFits(c: Config, req: Request, level: Level, a: nat, v0: nat, v1: nat)
    requires req.Establish?
  {
    var start := Start(level, Index(level, a));
    && c.ops.largePageEnabled && (level == IA32E_PDPT || level == IA32E_PD) && Within(level, a, v0, v1)
    && req.vbase <= start && Aligned(level, req.pbase + (start - req.vbase))
  }

  /** The bits of a new page: large ones are not executable under the execute-right callbacks. */
  function NewBits(ops: MemOps, level: Level, prot: Prot): Prot {
    if level == IA32E_PT then prot else if ops.mitigated then (prot - EPT_EXE) + PAGE_PS else prot + PAGE_PS
  }

  /** The end of the walk for an address after a request on [v0, v1). A block that the range does not meet
      stays as it is. A page that it covers is changed, one that it covers in part is split first. Where a
      page is to be mapped the first block that can be mapped as one is, and tables lead to it. */
  function Changed(c: Config, req: Request, v0: nat, v1: nat, a: nat, e: WalkEnd): WalkEnd
    decreases 3 - e.level
  {
    if !Meets(e.level, a, v0, v1) then e
    else
      match e.prot
      case Some(prot) =>
        if req.Establish? then e
        else if e.level == IA32E_PT || Within(e.level, a, v0, v1) then
          WalkEnd(e.level, if req.Modify? then Some((prot - req.clr) + req.set_) else None)
        else Changed(c, req, v0, v1, a, WalkEnd(e.level + 1, Some(PartBits(c.ops, e.level, prot))))
      case None =>
        if !req.Establish? then e
        else if e.level == IA32E_PT || PageFits(c, req, e.level, a, v0, v1) then
          WalkEnd(e.level, Some(NewBits(c.ops, e.level, req.prot)))
        else Changed(c, req, v0, v1, a, WalkEnd(e.level + 1, None))
  }

  /** Once a call has made a large page it has lost the execute right for the pages that follow. */
  function Tweaked(c: Config, req: Request): Request {
    if req.Establish? then req.(prot := TweakExeRight(c.ops, req.prot)) else req
  }

  predicate Ended(c: Config, req: Request, v0: nat, v1: nat, a: nat, e: WalkEnd, e': WalkEnd) {
    e' == Changed(c, req, v0, v1, a, e) || e' == Changed(c, Tweaked(c, req), v0, v1, a, e)
  }

  ghost predicate EndsDone(c: Config, t: Tables, t': Tables, level: Level, b0: nat, b1: nat, v0: nat, v1: nat, req: Request) {
    forall a :: Start(level, b0) <= a < Start(level, b1) ==>
      Ended(c, req, v0, v1, a, EndAt(c, t, level, a), EndAt(c, t', level, a))
  }

  lemma {:induction false} EndFrame(c: Config, t: Tables, t': Tables, level: Level, a: nat, lo: nat, hi: nat)
    requires SameOutside(t, t', lo, hi)
    requires Start(level, Index(level, a) + 1) <= lo || hi <= Start(level, Index(level, a))
    ensures EndAt(c, t', level, a) == EndAt(c, t, level, a)
    decreases 3 - level
  {
    var i := Index(level, a);
    BlockOf(level, a, i);
    if i < |t[level]| {
      assert t'[level][i] == t[level][i];
      if level < 3 {
        ChildIndex(level, a);
        ChildBlocks(level, i);
        StartMonotone(level + 1, PTRS_PER_TABLE * i, Index(level + 1, a));
        StartMonotone(level + 1, Index(level + 1, a) + 1, PTRS_PER_TABLE * i + PTRS_PER_TABLE);
        EndFrame(c, t, t', level + 1, a, lo, hi);
      }
    }
  }

  lemma EndOtherBlock(c: Config, t: Tables, t': Tables, level: Level, b: nat, a: nat)
    requires SameOutside(t, t', Start(level, b), Start(level, b + 1))
    requires !(Start(level, b) <= a < Start(level, b + 1))
    ensures EndAt(c, t', level, a) == EndAt(c, t, level, a)
  {
    var i := Index(level, a);
    BlockOf(level, a, b);
    if i < b {
      StartMonotone(level, i + 1, b);
    } else {
      StartMonotone(level, b + 1, i);
    }
    EndFrame(c, t, t', level, a, Start(level, b), Start(level, b + 1));
  }

  // ---- Two parts of a range ----

  /** The start of a block is the start of one at every level below. */
  lemma {:induction false} StartsAt(level: Level, below: Level, b: nat) returns (n: nat)
    requires level <= below
    ensures Start(level, b) == Start(below, n)
    decreases below - level
  {
    if level == below {
      n := b;
    } else {
      ChildBlocks(level, b);
      n := StartsAt(level + 1, below, PTRS_PER_TABLE * b);
    }
  }

  lemma BlockSide(level: Level, n: nat, a: nat)
    ensures a < Start(level, n) ==> Start(level, Index(level, a) + 1) <= Start(level, n)
    ensures Start(level, n) <= a ==> Start(level, n) <= Start(level, Index(level, a))
  {
    var k := Index(level, a);
    BlockOf(level, a, k);
    if k < n {
      StartMonotone(level, k + 1, n);
    } else {
      StartMonotone(level, n, k);
    }
  }

  /** A block lies in a block of a level above, or beside it. */
  lemma BlockInBlock(level: Level, below: Level, b: nat, a: nat)
    requires level <= below
    ensures var k := Index(below, a);
            if Start(level, b) <= a < Start(level, b + 1)
            then Start(level, b) <= Start(below, k) && Start(below, k + 1) <= Start(level, b + 1)
            else Start(below, k + 1) <= Start(level, b) || Start(level, b + 1) <= Start(below, k)
  {
    var m := StartsAt(level, below, b);
    var n := StartsAt(level, below, b + 1);
    hide Start, Index;
    BlockSide(below, m, a);
    BlockSide(below, n, a);
  }

  predicate PartOf(level: Level, b: nat, v0: nat, v: nat, w: nat) {
    && v0 <= v <= w && Start(level, b) <= v && w <= Start(level, b + 1)
    && (v == v0 || v == Start(level, b))
  }

  /** The part [v, w) of a range meets the blocks in its own block as the range so far with it does, and no
      others. */
  lemma MeetSame(level: Level, b: nat, v0: nat, v: nat, w: nat, a: nat, below: Level)
    requires level <= below && PartOf(level, b, v0, v, w)
    ensures Start(level, b) <= a < Start(level, b + 1) ==>
              && Meets(below, a, v0, w) == Meets(below, a, v, w) && Within(below, a, v0, w) == Within(below, a, v, w)
              && !Meets(below, a, v0, v)
    ensures !(Start(level, b) <= a < Start(level, b + 1)) ==>
              Meets(below, a, v0, w) == Meets(below, a, v0, v) && Within(below, a, v0, w) == Within(below, a, v0, v)
  {
    BlockInBlock(level, below, b, a);
    BlockOf(below, a, Index(below, a));
    hide Index, Start;
  }

  lemma {:induction false} ChangedSame(c: Config, req: Request, a: nat, e: WalkEnd, v0: nat, v1: nat, w0: nat, w1: nat)
    requires forall l: Level :: e.level <= l ==> Meets(l, a, v0, v1) == Meets(l, a, w0, w1) && Within(l, a, v0, v1) == Within(l, a, w0, w1)
    ensures Changed(c, req, v0, v1, a, e) == Changed(c, req, w0, w1, a, e)
    decreases 3 - e.level
  {
    hide Meets, Within;
    if e.level < 3 {
      ChangedSame(c, req, a, WalkEnd(e.level + 1, None), v0, v1, w0, w1);
      if e.prot.Some? {
        ChangedSame(c, req, a, WalkEnd(e.level + 1, Some(PartBits(c.ops, e.level, e.prot.value))), v0, v1, w0, w1);
      }
    }
  }

  /** The range so far and the next part of it change an end as their union does. */
  lemma RangesMeet(c: Config, req: Request, level: Level, b: nat, v0: nat, v: nat, w: nat, a: nat, e: WalkEnd)
    requires PartOf(level, b, v0, v, w) && e.level >= level
    ensures Start(level, b) <= a < Start(level, b + 1) ==>
              Changed(c, req, v0, v, a, e) == e && Changed(c, req, v0, w, a, e) == Changed(c, req, v, w, a, e)
    ensures !(Start(level, b) <= a < Start(level, b + 1)) ==> Changed(c, req, v0, w, a, e) == Changed(c, req, v0, v, a, e)
  {
    forall l: Level | e.level <= l
      ensures Start(level, b) <= a < Start(level, b + 1) ==>
                Meets(l, a, v0, w) == Meets(l, a, v, w) && Within(l, a, v0, w) == Within(l, a, v, w) && !Meets(l, a, v0, v)
      ensures !(Start(level, b) <= a < Start(level, b + 1)) ==>
                Meets(l, a, v0, w) == Meets(l, a, v0, v) && Within(l, a, v0, w) == Within(l, a, v0, v)
    {
      MeetSame(level, b, v0, v, w, a, l);
    }
    hide Meets, Within;
    if Start(level, b) <= a < Start(level, b + 1) {
      ChangedSame(c, req, a, e, v0, w, v, w);
    } else {
      ChangedSame(c, req, a, e, v0, w, v0, v);
    }
  }

  lemma EndsStep(c: Config, t: Tables, t1: Tables, t2: Tables, level: Level, b0: nat, b1: nat, b: nat,
                 v0: nat, v: nat, w: nat, req: Request)
    requires b0 <= b < b1 && PartOf(level, b, v0, v, w)
    requires EndsDone(c, t, t1, level, b0, b1, v0, v, req)
    requires SameOutside(t1, t2, Start(level, b), Start(level, b + 1))
    requires EndsDone(c, t1, t2, level, b, b + 1, v, w, req)
    ensures EndsDone(c, t, t2, level, b0, b1, v0, w, req)
  {
    hide Changed, SameOutside, Tweaked, PartOf;
    forall a | Start(level, b0) <= a < Start(level, b1)
      ensures Ended(c, req, v0, w, a, EndAt(c, t, level, a), EndAt(c, t2, level, a))
    {
      var e := EndAt(c, t, level, a);
      RangesMeet(c, req, level, b, v0, v, w, a, e);
      RangesMeet(c, Tweaked(c, req), level, b, v0, v, w, a, e);
      assert Ended(c, req, v0, v, a, e, EndAt(c, t1, level, a));
      if Start(level, b) <= a < Start(level, b + 1) {
        assert Ended(c, req, v, w, a, EndAt(c, t1, level, a), EndAt(c, t2, level, a));
      } else {
        EndOtherBlock(c, t1, t2, level, b, a);
      }
    }
  }

  // ---- One block ----

  lemma EndsNothing(c: Config, t: Tables, level: Level, b0: nat, b1: nat, v: nat, req: Request)
    ensures forall w: nat :: w <= v ==> EndsDone(c, t, t, level, b0, b1, v, w, req)
  {
    hide EndAt;
  }

  lemma EndOfAbsent(c: Config, t: Tables, level: Level, b: nat, a: nat)
    requires b < |t[level]| && !Present(c.ops, t[level][b]) && Start(level, b) <= a < Start(level, b + 1)
    ensures EndAt(c, t, level, a) == WalkEnd(level, None)
  {
    BlockOf(level, a, b);
  }

  lemma EndOfPage(c: Config, t: Tables, level: Level, b: nat, a: nat)
    requires b < |t[level]| && Present(c.ops, t[level][b]) && MapsPage(level, t[level][b]) && Start(level, b) <= a < Start(level, b + 1)
    ensures EndAt(c, t, level, a) == WalkEnd(level, Some(t[level][b].prot))
  {
    BlockOf(level, a, b);
  }

  lemma EndThroughTable(c: Config, t: Tables, level: Level, b: nat, a: nat)
    requires level < 3 && b < |t[level]| && ReferencesTable(c, level, t[level][b])
    requires Start(level, b) <= a < Start(level, b + 1)
    ensures EndAt(c, t, level, a) == EndAt(c, t, level + 1, a)
  {
    BlockOf(level, a, b);
  }

  lemma EndsOfAbsent(c: Config, t: Tables, level: Level, b: nat, v: nat, w: nat, req: Request)
    requires b < |t[level]| && !Present(c.ops, t[level][b]) && !req.Establish?
    ensures EndsDone(c, t, t, level, b, b + 1, v, w, req)
  {
    hide EndAt;
    forall a | Start(level, b) <= a < Start(level, b + 1)
      ensures Ended(c, req, v, w, a, EndAt(c, t, level, a), EndAt(c, t, level, a))
    {
      EndOfAbsent(c, t, level, b, a);
    }
  }

  /** A page that is covered whole ends as what local_modify_or_del_pte makes of it. */
  lemma EndsOfWhole(c: Config, t: Tables, level: Level, b: nat, req: Request)
    requires level > 0 && b < |t[level]| && Present(c.ops, t[level][b]) && MapsPage(level, t[level][b]) && !req.Establish?
    requires req.Modify? ==> PAGE_PS !! req.clr - req.set_
    requires req.Modify? ==> Present(c.ops, LocalResult(c, t[level][b], req))
    ensures EndsDone(c, t, SetEntry(t, level, b, LocalResult(c, t[level][b], req)), level, b, b + 1,
                     Start(level, b), Start(level, b + 1), req)
  {
    var e' := LocalResult(c, t[level][b], req);
    var t' := SetEntry(t, level, b, e');
    SanitizedIsAbsent(c);
    assert req.Modify? ==> MapsPage(level, e');
    hide EndAt, MapsPage;
    forall a | Start(level, b) <= a < Start(level, b + 1)
      ensures Ended(c, req, Start(level, b), Start(level, b + 1), a, EndAt(c, t, level, a), EndAt(c, t', level, a))
    {
      BlockOf(level, a, b);
      EndOfPage(c, t, level, b, a);
      if req.Modify? {
        EndOfPage(c, t', level, b, a);
      } else {
        EndOfAbsent(c, t', level, b, a);
      }
    }
  }

  /** A block that can be mapped as one has been. */
  lemma EndsOfNewPage(c: Config, t: Tables, level: Level, b: nat, e: Entry, req: Request)
    requires level > 0 && b < |t[level]| && !Present(c.ops, t[level][b]) && req.Establish?
    requires Present(c.ops, e) && MapsPage(level, e)
    requires level == IA32E_PT || PageFits(c, req, level, Start(level, b), Start(level, b), Start(level, b + 1))
    requires e.prot == NewBits(c.ops, level, req.prot) || e.prot == NewBits(c.ops, level, TweakExeRight(c.ops, req.prot))
    ensures EndsDone(c, t, SetEntry(t, level, b, e), level, b, b + 1, Start(level, b), Start(level, b + 1), req)
  {
    var t' := SetEntry(t, level, b, e);
    hide EndAt, NewBits, Changed, PageFits;
    forall a | Start(level, b) <= a < Start(level, b + 1)
      ensures Ended(c, req, Start(level, b), Start(level, b + 1), a, EndAt(c, t, level, a), EndAt(c, t', level, a))
    {
      EndOfAbsent(c, t, level, b, a);
      EndOfPage(c, t', level, b, a);
      FitsTweaked(c, req, level, Start(level, b), Start(level, b), Start(level, b + 1));
      NewEnd(c, req, level, b, a);
      NewEnd(c, Tweaked(c, req), level, b, a);
    }
  }

  lemma NewEnd(c: Config, req: Request, level: Level, b: nat, a: nat)
    requires req.Establish? && Start(level, b) <= a < Start(level, b + 1)
    requires level == IA32E_PT || PageFits(c, req, level, Start(level, b), Start(level, b), Start(level, b + 1))
    ensures Changed(c, req, Start(level, b), Start(level, b + 1), a, WalkEnd(level, None))
         == WalkEnd(level, Some(NewBits(c.ops, level, req.prot)))
  {
    BlockOf(level, a, b);
    BlockOf(level, Start(level, b), b);
  }

  // ---- Work handed down ----

  /** t2 is t1 with the block of an entry handed down to a table: the one it references already, the parts
      of a split page, or an empty one where no page fits. */
  ghost predicate HandedDown(c: Config, t1: Tables, t2: Tables, level: Level, b: nat, v: nat, w: nat, req: Request) {
    && level < 3 && b < |t1[level]| && b < |t2[level]| && ReferencesTable(c, level, t2[level][b])
    && forall a, r: Request :: Start(level, b) <= a < Start(level, b + 1) && (r == req || r == Tweaked(c, req)) ==>
         Changed(c, r, v, w, a, EndAt(c, t2, level + 1, a)) == Changed(c, r, v, w, a, EndAt(c, t1, level, a))
  }

  lemma HandedAsIs(c: Config, t: Tables, level: Level, b: nat, v: nat, w: nat, req: Request)
    requires level < 3 && b < |t[level]| && ReferencesTable(c, level, t[level][b])
    ensures HandedDown(c, t, t, level, b, v, w, req)
  {
    hide Changed, EndAt;
    forall a | Start(level, b) <= a < Start(level, b + 1)
      ensures EndAt(c, t, level + 1, a) == EndAt(c, t, level, a)
    {
      EndThroughTable(c, t, level, b, a);
    }
  }

  /** The parts of a split page have the bits of the page, but 4-KByte ones have no page-size bit and get the
      execute bit under the execute-right callbacks. */
  lemma EndOfPart(c: Config, t: Tables, t': Tables, level: Level, b: nat, a: nat)
    requires level == IA32E_PDPT || level == IA32E_PD
    requires Ok(c, t, level, b) && Present(c.ops, t[level][b]) && MapsPage(level, t[level][b])
    requires PTRS_PER_TABLE * b + PTRS_PER_TABLE <= |t'[level + 1]|
    requires SplitEntries(c, t'[level + 1], level, b, t[level][b])
    requires Start(level, b) <= a < Start(level, b + 1)
    ensures EndAt(c, t', level + 1, a) == WalkEnd(level + 1, Some(PartBits(c.ops, level, t[level][b].prot)))
  {
    BlockOf(level, a, b);
    ChildIndex(level, a);
    var k := Index(level + 1, a);
    BlockOf(level + 1, a, k);
    SplitLeafOk(c, level, b, t[level][b], k);
    VisiblyPresentIsPresent(c.ops, t'[level + 1][k]);
    EndOfPage(c, t', level + 1, k, a);
  }

  /** Bit by bit: the entries of a split 2-MByte page are executable under the execute-right callbacks, whether
      or not the page was, and have no page-size bit; every other bit, and every bit of the parts of a
      1-GByte page, is as it was. */
  lemma SplitBits(c: Config, s: seq<Entry>, level: Level, b: nat, e: Entry, i: nat, bit: nat)
    requires (level == IA32E_PDPT || level == IA32E_PD) && PTRS_PER_TABLE * b + PTRS_PER_TABLE <= |s|
    requires SplitEntries(c, s, level, b, e) && i < PTRS_PER_TABLE
    ensures var part := s[PTRS_PER_TABLE * b + i];
            && part.paddr == e.paddr + i * (if level == IA32E_PDPT then PDE_SIZE else PTE_SIZE)
            && (level == IA32E_PDPT ==> part.prot == e.prot)
            && (level == IA32E_PD && bit == PS_BIT ==> bit !in part.prot)
            && (level == IA32E_PD && bit == EXE_BIT && c.ops.mitigated ==> bit in part.prot)
            && (level == IA32E_PD && bit != PS_BIT && !(bit == EXE_BIT && c.ops.mitigated) ==> (bit in part.prot <==> bit in e.prot))
  {
    assert s[PTRS_PER_TABLE * b + i] == Entry(e.paddr + i * Span(level + 1), SplitProt(c.ops, level, e.prot));
  }

  lemma HandedSplit(c: Config, t1: Tables, t2: Tables, level: Level, b: nat, v: nat, w: nat, req: Request)
    requires level == IA32E_PDPT || level == IA32E_PD
    requires Ok(c, t1, level, b) && Present(c.ops, t1[level][b]) && MapsPage(level, t1[level][b])
    requires b < |t2[level]| && ReferencesTable(c, level, t2[level][b])
    requires PTRS_PER_TABLE * b + PTRS_PER_TABLE <= |t2[level + 1]|
    requires SplitEntries(c, t2[level + 1], level, b, t1[level][b])
    requires Start(level, b) <= v < w <= Start(level, b + 1) && (Start(level, b) < v || w < Start(level, b + 1))
    requires !req.Establish?
    ensures HandedDown(c, t1, t2, level, b, v, w, req)
  {
    assert b < |t1[level]|;
    hide EndAt, Ok, SplitEntries, PartBits, Changed, Meets, Within;
    forall a | Start(level, b) <= a < Start(level, b + 1)
      ensures Changed(c, req, v, w, a, EndAt(c, t2, level + 1, a)) == Changed(c, req, v, w, a, EndAt(c, t1, level, a))
    {
      EndOfPage(c, t1, level, b, a);
      EndOfPart(c, t1, t2, level, b, a);
      SplitFirst(c, req, level, b, v, w, a, t1[level][b].prot);
    }
  }

  lemma SplitFirst(c: Config, req: Request, level: Level, b: nat, v: nat, w: nat, a: nat, prot: Prot)
    requires !req.Establish? && level < 3 && Start(level, b) <= a < Start(level, b + 1)
    requires Start(level, b) <= v < w <= Start(level, b + 1) && (Start(level, b) < v || w < Start(level, b + 1))
    ensures Changed(c, req, v, w, a, WalkEnd(level, Some(prot)))
         == Changed(c, req, v, w, a, WalkEnd(level + 1, Some(PartBits(c.ops, level, prot))))
  {
    BlockOf(level, a, b);
  }

  lemma TableFirst(c: Config, req: Request, level: Level, b: nat, v: nat, w: nat, a: nat)
    requires req.Establish? && level < 3 && Start(level, b) <= a < Start(level, b + 1)
    requires Start(level, b) <= v < w <= Start(level, b + 1) && !PageFits(c, req, level, v, v, w)
    ensures Changed(c, req, v, w, a, WalkEnd(level, None)) == Changed(c, req, v, w, a, WalkEnd(level + 1, None))
  {
    BlockOf(level, a, b);
    BlockOf(level, v, b);
  }

  lemma HandedEmpty(c: Config, t1: Tables, t2: Tables, level: Level, b: nat, v: nat, w: nat, req: Request)
    requires level < 3 && b < |t1[level]| && !Present(c.ops, t1[level][b]) && req.Establish?
    requires b < |t2[level]| && ReferencesTable(c, level, t2[level][b])
    requires PTRS_PER_TABLE * b + PTRS_PER_TABLE <= |t2[level + 1]| && TableFilled(t2[level + 1], b, Sanitized(c))
    requires Start(level, b) <= v < w <= Start(level, b + 1)
    requires !PageFits(c, req, level, v, v, w)
    ensures HandedDown(c, t1, t2, level, b, v, w, req)
  {
    hide EndAt, Changed, TableFilled, PageFits, Meets, Within;
    forall a, r: Request | Start(level, b) <= a < Start(level, b + 1) && (r == req || r == Tweaked(c, req))
      ensures Changed(c, r, v, w, a, EndAt(c, t2, level + 1, a)) == Changed(c, r, v, w, a, EndAt(c, t1, level, a))
    {
      EndOfAbsent(c, t1, level, b, a);
      EndOfEmptied(c, t2, level, b, a);
      FitsTweaked(c, req, level, v, v, w);
      TableFirst(c, r, level, b, v, w, a);
    }
  }

  lemma FitsTweaked(c: Config, req: Request, level: Level, a: nat, v: nat, w: nat)
    requires req.Establish?
    ensures PageFits(c, Tweaked(c, req), level, a, v, w) == PageFits(c, req, level, a, v, w)
  {
  }

  lemma EndOfEmptied(c: Config, t: Tables, level: Level, b: nat, a: nat)
    requires level < 3 && PTRS_PER_TABLE * b + PTRS_PER_TABLE <= |t[level + 1]| && TableFilled(t[level + 1], b, Sanitized(c))
    requires Start(level, b) <= a < Start(level, b + 1)
    ensures EndAt(c, t, level + 1, a) == WalkEnd(level + 1, None)
  {
    SanitizedIsAbsent(c);
    ChildIndex(level, a);
    BlockOf(level, a, b);
    BlockOf(level + 1, a, Index(level + 1, a));
    hide EndAt;
    EndOfAbsent(c, t, level + 1, Index(level + 1, a), a);
  }

  /** Work done in the table below is work done on the block. */
  lemma EndsDescend(c: Config, t1: Tables, t2: Tables, t3: Tables, level: Level, b: nat, v: nat, w: nat, req: Request)
    requires HandedDown(c, t1, t2, level, b, v, w, req)
    requires t3[level] == t2[level]
    requires EndsDone(c, t2, t3, level + 1, PTRS_PER_TABLE * b, PTRS_PER_TABLE * b + PTRS_PER_TABLE, v, w, req)
    ensures EndsDone(c, t1, t3, level, b, b + 1, v, w, req)
  {
    ChildBlocks(level, b);
    hide Changed, EndAt, Tweaked;
    forall a | Start(level, b) <= a < Start(level, b + 1)
      ensures Ended(c, req, v, w, a, EndAt(c, t1, level, a), EndAt(c, t3, level, a))
    {
      EndThroughTable(c, t3, level, b, a);
      assert Ended(c, req, v, w, a, EndAt(c, t2, level + 1, a), EndAt(c, t3, level + 1, a));
    }
  }

  // ---- Turns of the loops ----

  /** A table has done its work on [v0, v): the mappings, and the ends of walks. */
  ghost predicate WorkDone(c: Config, t: Tables, t': Tables, level: Level, page: nat, v0: nat, v: nat, req: Request) {
    && Updated(c, t, t', level, PTRS_PER_TABLE * page, PTRS_PER_TABLE * page + PTRS_PER_TABLE, v0, v, req)
    && EndsDone(c, t, t', level, PTRS_PER_TABLE * page, PTRS_PER_TABLE * page + PTRS_PER_TABLE, v0, v, req)
  }

  /** So has an entry on the part of a range in its block. */
  ghost predicate BlockWorkDone(c: Config, t: Tables, t': Tables, level: Level, b: nat, v: nat, w: nat, req: Request) {
    Updated(c, t, t', level, b, b + 1, v, w, req) && EndsDone(c, t, t', level, b, b + 1, v, w, req)
  }

  /** The work stands at the start of a block, or has not begun. */
  predicate AtHead(level: Level, v0: nat, v: nat) {
    v == v0 || v == Start(level, Index(level, v))
  }

  lemma NoWork(c: Config, t: Tables, level: Level, page: nat, v: nat, w: nat, req: Request)
    requires TableOk(c, t, level, page) && w <= v
    ensures WorkDone(c, t, t, level, page, v, w, req)
  {
    hide Ok, EndAt, Map;
    UpdatedNothing(c, t, level, PTRS_PER_TABLE * page, PTRS_PER_TABLE * page + PTRS_PER_TABLE, v, req);
    EndsNothing(c, t, level, PTRS_PER_TABLE * page, PTRS_PER_TABLE * page + PTRS_PER_TABLE, v, req);
  }

  /** One turn of a loop: the block of v is done, and the rest of the range is ready. */
  lemma WorkTurn(c: Config, t: Tables, t1: Tables, t2: Tables, level: Level, page: nat, v0: nat, v: nat, v1: nat, req: Request)
    requires Ready(c, t1, level, page, v, v1, req)
    requires v0 <= v && AtHead(level, v0, v) && WorkDone(c, t, t1, level, page, v0, v, req)
    requires BlockWorkDone(c, t1, t2, level, Index(level, v), v, BlockEnd(level, v, v1), req)
    ensures var w := BlockEnd(level, v, v1);
            && v < w && WorkDone(c, t, t2, level, page, v0, w, req)
            && (w < v1 ==>
                  && Ready(c, t2, level, page, w, v1, req) && AtHead(level, v0, w)
                  && Index(level, w) == Index(level, v) + 1 < PTRS_PER_TABLE * page + PTRS_PER_TABLE)
  {
    hide Ready, EndsDone, Updated, SameOutside, Ok, Map;
    BlockBounds(c, t1, level, page, v, v1, req);
    BlockDone(c, t, t1, t2, level, page, v0, v, v1, req);
    SameAround(c, t1, t2, level, Index(level, v), v, BlockEnd(level, v, v1), req);
    EndsStep(c, t, t1, t2, level, PTRS_PER_TABLE * page, PTRS_PER_TABLE * page + PTRS_PER_TABLE, Index(level, v),
             v0, v, BlockEnd(level, v, v1), req);
  }

  lemma SameAround(c: Config, t: Tables, t': Tables, level: Level, b: nat, v: nat, w: nat, req: Request)
    requires Updated(c, t, t', level, b, b + 1, v, w, req)
    ensures SameOutside(t, t', Start(level, b), Start(level, b + 1))
  {
  }

  lemma HeadAtStart(level: Level, v: nat)
    ensures AtHead(level, v, v)
  {
  }

  lemma AbsentTurn(c: Config, t: Tables, level: Level, page: nat, v: nat, v1: nat, req: Request)
    requires Ready(c, t, level, page, v, v1, req) && !req.Establish?
    requires Index(level, v) < |t[level]| && !Present(c.ops, t[level][Index(level, v)])
    ensures BlockWorkDone(c, t, t, level, Index(level, v), v, BlockEnd(level, v, v1), req)
  {
    BlockAbsent(c, t, level, page, v, v1, req);
    EndsOfAbsent(c, t, level, Index(level, v), v, BlockEnd(level, v, v1), req);
  }

  lemma WholeTurn(c: Config, t: Tables, level: Level, page: nat, v: nat, v1: nat, req: Request)
    requires level > 0 && Ready(c, t, level, page, v, v1, req) && !req.Establish?
    requires Aligned(level, v) && Start(level, Index(level, v) + 1) <= v1
    requires Index(level, v) < |t[level]|
    requires Present(c.ops, t[level][Index(level, v)]) && MapsPage(level, t[level][Index(level, v)])
    ensures var b := Index(level, v);
            BlockWorkDone(c, t, SetEntry(t, level, b, LocalResult(c, t[level][b], req)), level, b, v, BlockEnd(level, v, v1), req)
  {
    var b := Index(level, v);
    hide Ready, EndsDone, Ok, Map, Updated, LocalResult;
    BlockBounds(c, t, level, page, v, v1, req);
    AlignedStart(level, v);
    WholeLeafStep(c, t, level, page, v, v1, req);
    WholePageStays(c, t, level, page, v, v1, req);
    EndsOfWhole(c, t, level, b, req);
  }

  lemma WholePageStays(c: Config, t: Tables, level: Level, page: nat, v: nat, v1: nat, req: Request)
    requires level > 0 && Ready(c, t, level, page, v, v1, req) && !req.Establish?
    requires Index(level, v) < |t[level]|
    requires Present(c.ops, t[level][Index(level, v)]) && MapsPage(level, t[level][Index(level, v)])
    ensures req.Modify? ==> PAGE_PS !! req.clr - req.set_ && Present(c.ops, LocalResult(c, t[level][Index(level, v)], req))
  {
    hide Ok;
    BlockOf(level, v, Index(level, v));
    if req.Modify? {
      MapOfLeaf(c, t, level, Index(level, v), v);
      assert Admissible(c, req, Map(c, t, level, v));
      ModifiedPresent(c, t[level][Index(level, v)], req);
    }
  }

  lemma ModifiedPresent(c: Config, e: Entry, req: Request)
    requires req.Modify? && VisiblyPresent(c.ops, Modified(Visible(c.ops, e.prot), req.set_, req.clr))
    ensures Present(c.ops, LocalResult(c, e, req))
  {
    VisibleOfModified(c.ops, e.prot, req.set_, req.clr);
    VisiblyPresentIsPresent(c.ops, LocalResult(c, e, req));
  }

  /** The block of v is mapped by one new page. */
  lemma NewPageTurn(c: Config, t: Tables, level: Level, page: nat, v: nat, v1: nat, req: Request, e: Entry)
    requires Ready(c, t, level, page, v, v1, req) && req.Establish? && level > 0
    requires Aligned(level, v) && Start(level, Index(level, v) + 1) <= v1
    requires e.paddr == PaddrOf(req, v) && Aligned(level, e.paddr) && MapsPage(level, e)
    requires e.prot == NewBits(c.ops, level, req.prot) || e.prot == NewBits(c.ops, level, TweakExeRight(c.ops, req.prot))
    requires level == IA32E_PT || c.ops.largePageEnabled
    requires Index(level, v) < |t[level]| && !Present(c.ops, t[level][Index(level, v)])
    ensures var b := Index(level, v); BlockWorkDone(c, t, SetEntry(t, level, b, e), level, b, v, BlockEnd(level, v, v1), req)
  {
    hide Updated, EndsDone, Ready, Visible, Ok, Map, NewBits, PageFits;
    var b := Index(level, v);
    BlockBounds(c, t, level, page, v, v1, req);
    AlignedStart(level, v);
    NewPageOk(c, t, level, page, v, v1, req, e);
    WholeBlockStep(c, t, level, page, v, v1, req, e);
    if level < IA32E_PT {
      WholeFits(c, t, level, page, v, v1, req);
    }
    EndsOfNewPage(c, t, level, b, e, req);
  }

  lemma NewPageOk(c: Config, t: Tables, level: Level, page: nat, v: nat, v1: nat, req: Request, e: Entry)
    requires Ready(c, t, level, page, v, v1, req) && req.Establish? && level > 0
    requires e.prot == NewBits(c.ops, level, req.prot) || e.prot == NewBits(c.ops, level, TweakExeRight(c.ops, req.prot))
    ensures Visible(c.ops, e.prot) == Visible(c.ops, req.prot) && Present(c.ops, e)
    ensures c.noExecLarge && level < IA32E_PT ==> EPT_EXE !! e.prot
  {
    hide Ok, Map;
    NewBitsVisible(c.ops, level, req.prot);
    assert VisiblyPresent(c.ops, req.prot) && (c.noExecLarge ==> c.ops.mitigated);
    VisiblyPresentIsPresent(c.ops, e);
  }

  lemma WholeFits(c: Config, t: Tables, level: Level, page: nat, v: nat, v1: nat, req: Request)
    requires Ready(c, t, level, page, v, v1, req) && req.Establish? && level > 0 && level < IA32E_PT && c.ops.largePageEnabled
    requires Aligned(level, v) && Aligned(level, PaddrOf(req, v))
    ensures var b := Index(level, v); PageFits(c, req, level, Start(level, b), Start(level, b), Start(level, b + 1))
  {
    hide Ok, Map;
    AlignedStart(level, v);
    BlockOf(level, v, Index(level, v));
  }

  /** The turn of the loop of modify_or_del_pte. */
  lemma PteTurn(c: Config, t: Tables, page: nat, v: nat, v1: nat, req: Request)
    requires Ready(c, t, IA32E_PT, page, v, v1, req) && !req.Establish?
    ensures PteBounds(page, v, v1) && Index(IA32E_PT, v) < |t[IA32E_PT]|
    ensures var k := Index(IA32E_PT, v);
            BlockWorkDone(c, t, EntryResult(c, t, IA32E_PT, k, req), IA32E_PT, k, v, BlockEnd(IA32E_PT, v, v1), req)
  {
    PteBlock(v, v1);
    PteStarts(c, t, page, v, v1, req);
    BlockInTable(c, t, IA32E_PT, page, v, v1, req);
    if Present(c.ops, t[IA32E_PT][Index(IA32E_PT, v)]) {
      WholeTurn(c, t, IA32E_PT, page, v, v1, req);
    } else {
      AbsentTurn(c, t, IA32E_PT, page, v, v1, req);
    }
  }

  predicate PteBounds(page: nat, v: nat, v1: nat) {
    && BlockEnd(IA32E_PT, v, v1) == v + PTE_SIZE <= v1 && v == Start(IA32E_PT, Index(IA32E_PT, v))
    && Index(IA32E_PT, v + PTE_SIZE) == Index(IA32E_PT, v) + 1
    && (v + PTE_SIZE < v1 ==> Index(IA32E_PT, v) + 1 < PTRS_PER_TABLE * page + PTRS_PER_TABLE)
  }

  lemma PteStarts(c: Config, t: Tables, page: nat, v: nat, v1: nat, req: Request)
    requires Ready(c, t, IA32E_PT, page, v, v1, req)
    ensures PteBounds(page, v, v1)
  {
    hide Ok, Map;
    PteBlock(v, v1);
    BlockBounds(c, t, IA32E_PT, page, v, v1, req);
    AlignedStart(IA32E_PT, v);
  }

  /** The turn of the loop of add_pte. */
  lemma AddPteTurn(c: Config, t: Tables, page: nat, v: nat, v1: nat, req: Request, e: Entry)
    requires Ready(c, t, IA32E_PT, page, v, v1, req) && req.Establish?
    requires e.paddr == PaddrOf(req, v) && (e.prot == req.prot || e.prot == TweakExeRight(c.ops, req.prot))
    ensures PteBounds(page, v, v1)
    ensures var k := Index(IA32E_PT, v);
            && k < |t[IA32E_PT]| && !Present(c.ops, t[IA32E_PT][k]) && Present(c.ops, e)
            && BlockWorkDone(c, t, SetEntry(t, IA32E_PT, k, e), IA32E_PT, k, v, BlockEnd(IA32E_PT, v, v1), req)
  {
    PteStarts(c, t, page, v, v1, req);
    NothingMapped(c, t, IA32E_PT, page, v, v1, req);
    NewPageOk(c, t, IA32E_PT, page, v, v1, req, e);
    NewPageTurn(c, t, IA32E_PT, page, v, v1, req, e);
  }

  /** Where the tests of add_pde and add_pdpte fail, no page fits. */
  lemma NotFits(c: Config, req: Request, level: Level, v: nat, v1: nat)
    requires req.Establish? && req.vbase <= v
    requires level == IA32E_PML4 || !(c.ops.largePageEnabled && Aligned(level, PaddrOf(req, v)) && Aligned(level, v)
                                      && Start(level, Index(level, v) + 1) <= v1)
    ensures !PageFits(c, req, level, v, v, BlockEnd(level, v, v1))
  {
    BlockOf(level, v, Index(level, v));
    StartAligned(level, Index(level, v));
  }

  /** Large pages always get the same bits. */
  lemma LargeBits(ops: MemOps, level: Level, prot: Prot, effective: Prot)
    requires level < IA32E_PT && (effective == prot || effective == TweakExeRight(ops, prot))
    ensures TweakExeRight(ops, effective) + PAGE_PS == NewBits(ops, level, prot)
    ensures PS_BIT in TweakExeRight(ops, effective) + PAGE_PS
    ensures TweakExeRight(ops, effective) == TweakExeRight(ops, prot)
  {
  }

  lemma NewBitsVisible(ops: MemOps, level: Level, prot: Prot)
    ensures Visible(ops, NewBits(ops, level, prot)) == Visible(ops, prot)
    ensures Visible(ops, NewBits(ops, level, TweakExeRight(ops, prot))) == Visible(ops, prot)
  {
  }

  /** The work of the table below has been done, and is work on the block of the entry. */
  lemma DescendTurn(c: Config, t1: Tables, t2: Tables, t3: Tables, level: Level, page: nat, v: nat, v1: nat, req: Request)
    requires level < 3 && Ready(c, t2, level, page, v, v1, req)
    requires var k := Index(level, v);
             && HandedDown(c, t1, t2, level, k, v, BlockEnd(level, v, v1), req)
             && Updated(c, t1, t2, level, k, k + 1, v, v, req)
             && t3[level] == t2[level]
             && WorkDone(c, t2, t3, level + 1, k, v, BlockEnd(level, v, v1), req)
    ensures BlockWorkDone(c, t1, t3, level, Index(level, v), v, BlockEnd(level, v, v1), req)
  {
    hide Ready, Updated, EndsDone;
    var k := Index(level, v);
    assert k < |t2[level]| && ReferencesTable(c, level, t2[level][k]);
    hide HandedDown;
    DescendDone(c, t1, t2, t3, level, page, v, v1, req);
    EndsDescend(c, t1, t2, t3, level, k, v, BlockEnd(level, v, v1), req);
  }

  /** A page that the range covers in part has been split. */
  lemma SplitTurn(c: Config, t1: Tables, t2: Tables, level: Level, page: nat, v: nat, v1: nat, req: Request)
    requires Ready(c, t1, level, page, v, v1, req) && !req.Establish?
    requires level == IA32E_PDPT || (level == IA32E_PD && c.ops.hasPtPage)
    requires Index(level, v) < |t1[level]|
    requires Present(c.ops, t1[level][Index(level, v)]) && MapsPage(level, t1[level][Index(level, v)])
    requires Start(level, Index(level, v) + 1) > v1 || !Aligned(level, v)
    requires TableInstalled(c, t1, t2, level, Index(level, v))
    requires SplitEntries(c, t2[level + 1], level, Index(level, v), t1[level][Index(level, v)])
    ensures var k := Index(level, v);
            && Updated(c, t1, t2, level, k, k + 1, v, v, req) && Ready(c, t2, level, page, v, v1, req)
            && HandedDown(c, t1, t2, level, k, v, BlockEnd(level, v, v1), req)
            && k < |t2[level]| && ReferencesTable(c, level, t2[level][k])
  {
    var k := Index(level, v);
    SplitDone(c, t1, t2, level, page, v, v1, req);
    BlockInTable(c, t1, level, page, v, v1, req);
    BlockBounds(c, t1, level, page, v, v1, req);
    BlockOf(level, v, k);
    StartAligned(level, k);
    hide Ready, Ok, Updated, SplitEntries, HandedDown;
    HandedSplit(c, t1, t2, level, k, v, BlockEnd(level, v, v1), req);
  }

  lemma StartAligned(level: Level, b: nat)
    ensures Aligned(level, Start(level, b))
  {
  }

  /** An empty table has taken the place of an absent entry. */
  lemma EmptyTurn(c: Config, t1: Tables, t2: Tables, level: Level, page: nat, v: nat, v1: nat, req: Request)
    requires Ready(c, t1, level, page, v, v1, req) && req.Establish? && level < 3
    requires Index(level, v) < |t1[level]| && !Present(c.ops, t1[level][Index(level, v)])
    requires Index(level, v) < |t2[level]| && ReferencesTable(c, level, t2[level][Index(level, v)])
    requires PTRS_PER_TABLE * Index(level, v) + PTRS_PER_TABLE <= |t2[level + 1]|
    requires TableFilled(t2[level + 1], Index(level, v), Sanitized(c))
    requires !PageFits(c, req, level, v, v, BlockEnd(level, v, v1))
    ensures HandedDown(c, t1, t2, level, Index(level, v), v, BlockEnd(level, v, v1), req)
  {
    BlockBounds(c, t1, level, page, v, v1, req);
    hide Ready, TableFilled, HandedDown;
    HandedEmpty(c, t1, t2, level, Index(level, v), v, BlockEnd(level, v, v1), req);
  }

  // ---- Whole requests ----

  /** What a request on [v0, v1) has done to the walks of the whole address space. */
  ghost predicate AllEndsDone(c: Config, t: Tables, t': Tables, v0: nat, v1: nat, req: Request) {
    EndsDone(c, t, t', IA32E_PML4, 0, PTRS_PER_TABLE, v0, v1, req)
  }

  lemma RootDone(c: Config, t: Tables, t': Tables, v0: nat, v1: nat, req: Request)
    requires WellFormed(c, t) && WorkDone(c, t, t', IA32E_PML4, 0, v0, v1, req)
    ensures WellFormed(c, t') && CarriedOut(c, t, t', v0, v1, req) && AllEndsDone(c, t, t', v0, v1, req)
  {
    RootUpdated(c, t, t', v0, v1, req);
  }
}
