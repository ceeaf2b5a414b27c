/** What one assignment to an entry does to the meaning of a set of tables: the leaf steps of
    local_modify_or_del_pte, add_pte, add_pde and add_pdpte, the split of a large page and the
    construction of a new table. Each is one block of work in the sense of Paging.Updated. */
module PagingSteps {
  import opened PageEntry
  import opened Paging
  import opened Wrappers

  function SetEntry(t: Tables, level: Level, k: nat, e: Entry): Tables
    requires k < |t[level]|
  {
    t[level := t[level][k := e]]
  }

  lemma SetEntrySame(t: Tables, level: Level, b: nat, e: Entry)
    requires b < |t[level]|
    ensures SameOutside(t, SetEntry(t, level, b, e), Start(level, b), Start(level, b + 1))
  {
    var t' := SetEntry(t, level, b, e);
    BlockOf(level, Start(level, b), b);
    forall l: Level, i: nat | i < |t[l]| && !(Start(level, b) <= Start(l, i) < Start(level, b + 1))
      ensures t'[l][i] == t[l][i]
    {
    }
  }

  /** Every address of a block whose entry maps a page is mapped by that entry. */
  lemma MapOfLeaf(c: Config, t: Tables, level: Level, b: nat, a: nat)
    requires b < |t[level]| && Start(level, b) <= a < Start(level, b + 1)
    requires Present(c.ops, t[level][b]) && MapsPage(level, t[level][b])
    ensures Map(c, t, level, a)
         == Some(Mapping(t[level][b].paddr + (a - Start(level, b)), Visible(c.ops, t[level][b].prot)))
  {
    BlockOf(level, a, b);
  }

  lemma MapOfAbsent(c: Config, t: Tables, level: Level, b: nat, a: nat)
    requires b < |t[level]| && Start(level, b) <= a < Start(level, b + 1)
    requires !Present(c.ops, t[level][b])
    ensures Map(c, t, level, a) == None
  {
    BlockOf(level, a, b);
  }

  lemma AbsentStep(c: Config, t: Tables, level: Level, b: nat, v: nat, w: nat, req: Request)
    requires Ok(c, t, level, b) && !Present(c.ops, t[level][b])
    requires !req.Establish?
    ensures Updated(c, t, t, level, b, b + 1, v, w, req)
  {
    forall a | Start(level, b) <= a < Start(level, b + 1)
      ensures Map(c, t, level, a) == None
    {
      MapOfAbsent(c, t, level, b, a);
    }
  }

  lemma SanitizedIsAbsent(c: Config)
    ensures !Present(c.ops, Sanitized(c)) && !Large(Sanitized(c))
  {
    assert Sanitized(c).prot * c.ops.presentMask == {};
  }

  lemma DeleteLeafStep(c: Config, t: Tables, level: Level, b: nat)
    requires Ok(c, t, level, b) && level > 0
    ensures Updated(c, t, SetEntry(t, level, b, Sanitized(c)), level, b, b + 1,
                    Start(level, b), Start(level, b + 1), Delete)
  {
    var t' := SetEntry(t, level, b, Sanitized(c));
    SanitizedIsAbsent(c);
    SetEntrySame(t, level, b, Sanitized(c));
    forall a | Start(level, b) <= a < Start(level, b + 1)
      ensures Map(c, t', level, a) == None
    {
      MapOfAbsent(c, t', level, b, a);
    }
  }

  lemma ModifyLeafStep(c: Config, t: Tables, level: Level, b: nat, set_: Prot, clr: Prot)
    requires Ok(c, t, level, b) && level > 0
    requires Present(c.ops, t[level][b]) && MapsPage(level, t[level][b])
    requires PAGE_PS !! clr - set_
    requires VisiblyPresent(c.ops, Modified(Visible(c.ops, t[level][b].prot), set_, clr))
    requires c.noExecLarge && level < IA32E_PT ==> EPT_EXE !! set_
    ensures var e' := t[level][b].(prot := Modified(t[level][b].prot, set_, clr));
            Updated(c, t, SetEntry(t, level, b, e'), level, b, b + 1,
                    Start(level, b), Start(level, b + 1), Modify(set_, clr))
  {
    var e := t[level][b];
    var e' := e.(prot := Modified(e.prot, set_, clr));
    var t' := SetEntry(t, level, b, e');
    VisibleOfModified(c.ops, e.prot, set_, clr);
    VisibleOfCallbacks(c.ops, e'.prot);
    assert Visible(c.ops, e'.prot) == Visible(c.ops, Modified(Visible(c.ops, e.prot), set_, clr));
    VisiblyPresentIsPresent(c.ops, e');
    assert MapsPage(level, e');
    SetEntrySame(t, level, b, e');
    forall a | Start(level, b) <= a < Start(level, b + 1)
      ensures Map(c, t', level, a) == Apply(c, Modify(set_, clr), a, Map(c, t, level, a))
    {
      MapOfLeaf(c, t, level, b, a);
      MapOfLeaf(c, t', level, b, a);
    }
  }

  /** A fresh leaf maps its block to consecutive physical addresses. */
  lemma EstablishLeafStep(c: Config, t: Tables, level: Level, b: nat, e: Entry, req: Request)
    requires b < |t[level]| && level > 0
    requires LeafOk(c, level, b, e) && MapsPage(level, e)
    requires req.Establish? && req.vbase <= Start(level, b)
    requires e.paddr == req.pbase + (Start(level, b) - req.vbase)
    requires Visible(c.ops, e.prot) == Visible(c.ops, req.prot)
    ensures Updated(c, t, SetEntry(t, level, b, e), level, b, b + 1,
                    Start(level, b), Start(level, b + 1), req)
  {
    var t' := SetEntry(t, level, b, e);
    VisiblyPresentIsPresent(c.ops, e);
    SetEntrySame(t, level, b, e);
    forall a | Start(level, b) <= a < Start(level, b + 1)
      ensures Map(c, t', level, a) == Apply(c, req, a, Map(c, t, level, a))
    {
      MapOfLeaf(c, t', level, b, a);
    }
  }

  // ---- New tables ----

  ghost predicate SameButTable(s: seq<Entry>, s': seq<Entry>, page: nat) {
    && |s'| == |s|
    && forall k: nat :: k < |s| && !(PTRS_PER_TABLE * page <= k < PTRS_PER_TABLE * page + PTRS_PER_TABLE) ==> s'[k] == s[k]
  }

  ghost predicate TableFilled(s: seq<Entry>, page: nat, e: Entry)
    requires PTRS_PER_TABLE * page + PTRS_PER_TABLE <= |s|
  {
    forall k :: PTRS_PER_TABLE * page <= k < PTRS_PER_TABLE * page + PTRS_PER_TABLE ==> s[k] == e
  }

  /** t' is t with entry b of a level made to reference its slot, whose entries are given. */
  ghost predicate TableInstalled(c: Config, t: Tables, t': Tables, level: Level, b: nat)
    requires level < 3 && b < |t[level]|
  {
    && t' == t[level := t[level][b := TableEntry(c, level, b)]][level + 1 := t'[level + 1]]
    && PTRS_PER_TABLE * b + PTRS_PER_TABLE <= |t[level + 1]|
    && SameButTable(t[level + 1], t'[level + 1], b)
  }

  /** A page that is zeroed and then filled before it is referenced is installed all the same. */
  lemma InstalledTwice(c: Config, t: Tables, t': Tables, level: Level, b: nat)
    requires level < 3 && b < |t[level]| && PTRS_PER_TABLE * b + PTRS_PER_TABLE <= |t[level + 1]|
    requires t' == t[level := t[level][b := TableEntry(c, level, b)]][level + 1 := t'[level + 1]]
    requires SameButTable(t[level + 1], t'[level + 1], b)
    ensures TableInstalled(c, t, t', level, b)
  {
  }

  lemma InstalledSame(c: Config, t: Tables, t': Tables, level: Level, b: nat)
    requires level < 3 && b < |t[level]| && TableInstalled(c, t, t', level, b)
    ensures SameOutside(t, t', Start(level, b), Start(level, b + 1))
  {
    ChildBlocks(level, b);
    BlockOf(level, Start(level, b), b);
    forall l: Level
      ensures |t'[l]| == |t[l]|
    {
    }
    forall l: Level, i: nat | i < |t[l]| && !(Start(level, b) <= Start(l, i) < Start(level, b + 1))
      ensures t'[l][i] == t[l][i]
    {
      if l == level + 1 && PTRS_PER_TABLE * b <= i < PTRS_PER_TABLE * b + PTRS_PER_TABLE {
        StartMonotone(l, PTRS_PER_TABLE * b, i);
        StartMonotone(l, i + 1, PTRS_PER_TABLE * b + PTRS_PER_TABLE);
        BlockOf(l, Start(l, i), i);
      }
    }
  }

  /** The block of an entry that references its table means what the table means. */
  lemma InstalledBlock(c: Config, t: Tables, t': Tables, level: Level, b: nat)
    requires level < 3 && b < |t[level]| && TableInstalled(c, t, t', level, b)
    requires Supported(c.ops) && (level == IA32E_PD ==> c.ops.hasPtPage)
    requires TableOk(c, t', level + 1, b)
    ensures Ok(c, t', level, b)
    ensures forall a :: Start(level, b) <= a < Start(level, b + 1) ==> Map(c, t', level, a) == Map(c, t', level + 1, a)
  {
    var e := TableEntry(c, level, b);
    DefaultRightIsPresent(c.ops, e.paddr);
    assert t'[level][b] == e && Present(c.ops, e) && !MapsPage(level, e);
    forall a | Start(level, b) <= a < Start(level, b + 1)
      ensures Map(c, t', level, a) == Map(c, t', level + 1, a)
    {
      BlockOf(level, a, b);
    }
  }

  /** construct_pgentry: a table full of sanitized entries means the same as an absent entry. */
  lemma ConstructStep(c: Config, t: Tables, t': Tables, level: Level, b: nat, v: nat, req: Request)
    requires level < 3 && b < |t[level]| && TableInstalled(c, t, t', level, b)
    requires Supported(c.ops) && (level == IA32E_PD ==> c.ops.hasPtPage)
    requires !Present(c.ops, t[level][b])
    requires TableFilled(t'[level + 1], b, Sanitized(c))
    ensures Updated(c, t, t', level, b, b + 1, v, v, req)
  {
    SanitizedIsAbsent(c);
    InstalledSame(c, t, t', level, b);
    var child: Level := level + 1;
    forall k | PTRS_PER_TABLE * b <= k < PTRS_PER_TABLE * b + PTRS_PER_TABLE
      ensures Ok(c, t', child, k)
    {
    }
    InstalledBlock(c, t, t', level, b);
    forall a | Start(level, b) <= a < Start(level, b + 1)
      ensures Map(c, t', level, a) == Map(c, t, level, a)
    {
      MapOfAbsent(c, t, level, b, a);
      ChildIndex(level, a);
      BlockOf(level, a, b);
      BlockOf(level + 1, a, Index(level + 1, a));
      MapOfAbsent(c, t', level + 1, Index(level + 1, a), a);
    }
  }

  /** The properties split_large_page gives the entries of the new table. */
  function SplitProt(ops: MemOps, level: Level, prot: Prot): Prot {
    if level == IA32E_PDPT then prot else RecoverExeRight(ops, prot - PAGE_PS)
  }

  /** The new table of a split: entry i maps the i-th part of the large page. */
  ghost predicate SplitEntries(c: Config, s: seq<Entry>, level: Level, b: nat, e: Entry)
    requires level == IA32E_PDPT || level == IA32E_PD
    requires PTRS_PER_TABLE * b + PTRS_PER_TABLE <= |s|
  {
    forall k :: PTRS_PER_TABLE * b <= k < PTRS_PER_TABLE * b + PTRS_PER_TABLE ==>
      s[k] == Entry(e.paddr + (k - PTRS_PER_TABLE * b) * Span(level + 1), SplitProt(c.ops, level, e.prot))
  }

  lemma SplitLeafOk(c: Config, level: Level, b: nat, e: Entry, k: nat)
    requires level == IA32E_PDPT || level == IA32E_PD
    requires LeafOk(c, level, b, e) && MapsPage(level, e)
    requires PTRS_PER_TABLE * b <= k < PTRS_PER_TABLE * b + PTRS_PER_TABLE
    ensures Start(level, b) <= Start(level + 1, k) && Start(level + 1, k + 1) <= Start(level, b + 1)
    ensures (k - PTRS_PER_TABLE * b) * Span(level + 1) == Start(level + 1, k) - Start(level, b)
    ensures var e' := Entry(e.paddr + (k - PTRS_PER_TABLE * b) * Span(level + 1), SplitProt(c.ops, level, e.prot));
            LeafOk(c, level + 1, k, e') && MapsPage(level + 1, e')
            && Visible(c.ops, e'.prot) == Visible(c.ops, e.prot)
  {
    ChildBlocks(level, b);
    StartMonotone(level + 1, PTRS_PER_TABLE * b, k);
    StartMonotone(level + 1, k + 1, PTRS_PER_TABLE * b + PTRS_PER_TABLE);
    SplitPart(level, b, e.paddr, k);
    VisibleOfCallbacks(c.ops, e.prot);
    VisibleOfCallbacks(c.ops, e.prot - PAGE_PS);
  }

  lemma SplitPart(level: Level, b: nat, paddr: nat, k: nat)
    requires level == IA32E_PDPT || level == IA32E_PD
    requires PTRS_PER_TABLE * b <= k < PTRS_PER_TABLE * b + PTRS_PER_TABLE
    requires Aligned(level, paddr)
    ensures var part := (k - PTRS_PER_TABLE * b) * Span(level + 1);
            && part == Start(level + 1, k) - Start(level, b)
            && Aligned(level + 1, paddr + part)
            && part + Span(level + 1) <= Span(level)
  {
    if level == IA32E_PDPT {
      var i := k - PTRS_PER_TABLE * b;
      assert Span(level + 1) == PDE_SIZE;
    } else {
      assert Span(level + 1) == PTE_SIZE;
    }
  }

  /** split_large_page: the 512 parts mean what the large page meant. */
  lemma SplitStep(c: Config, t: Tables, t': Tables, level: Level, b: nat, v: nat, req: Request)
    requires level == IA32E_PDPT || level == IA32E_PD
    requires Ok(c, t, level, b) && Present(c.ops, t[level][b]) && MapsPage(level, t[level][b])
    requires Supported(c.ops) && (level == IA32E_PD ==> c.ops.hasPtPage)
    requires TableInstalled(c, t, t', level, b) && SplitEntries(c, t'[level + 1], level, b, t[level][b])
    ensures Updated(c, t, t', level, b, b + 1, v, v, req)
  {
    var e := t[level][b];
    InstalledSame(c, t, t', level, b);
    var child: Level := level + 1;
    forall k | PTRS_PER_TABLE * b <= k < PTRS_PER_TABLE * b + PTRS_PER_TABLE
      ensures Ok(c, t', child, k)
    {
      SplitLeafOk(c, level, b, e, k);
      VisiblyPresentIsPresent(c.ops, t'[level + 1][k]);
    }
    InstalledBlock(c, t, t', level, b);
    forall a | Start(level, b) <= a < Start(level, b + 1)
      ensures Map(c, t', level, a) == Map(c, t, level, a)
    {
      SplitAddress(c, t, t', level, b, a);
    }
  }

  /** The first n entries of a table map consecutive parts of a page. */
  ghost predicate PartsFilled(s: seq<Entry>, page: nat, n: nat, paddr: nat, size: nat, prot: Prot)
    requires n <= PTRS_PER_TABLE && PTRS_PER_TABLE * page + PTRS_PER_TABLE <= |s|
  {
    forall k :: PTRS_PER_TABLE * page <= k < PTRS_PER_TABLE * page + n ==>
      s[k] == Entry(paddr + (k - PTRS_PER_TABLE * page) * size, prot)
  }

  /** Masking an aligned physical address changes nothing. */
  lemma AlignedAddress(level: Level, paddr: nat)
    requires Aligned(level, paddr) && paddr + Span(level) <= PADDR_LIMIT
    ensures level == IA32E_PDPT ==> paddr % PADDR_LIMIT / PDPTE_SIZE * PDPTE_SIZE == paddr
    ensures level == IA32E_PD ==> paddr % PADDR_LIMIT / PDE_SIZE * PDE_SIZE == paddr
  {
  }

  /** There is a slot for the table that replaces a large page. */
  lemma SplitRoom(c: Config, t: Tables, level: Level, b: nat)
    requires level == IA32E_PDPT || (level == IA32E_PD && c.ops.hasPtPage)
    requires Sized(c, t) && b < |t[level]| && LeafOk(c, level, b, t[level][b])
    ensures PTRS_PER_TABLE * b + PTRS_PER_TABLE <= |t[level + 1]|
  {
    if level == IA32E_PDPT {
      assert (b + 1) * PDPTE_SIZE <= c.space;
    } else {
      assert (b + 1) * PDE_SIZE <= c.space;
    }
  }

  lemma SplitAddress(c: Config, t: Tables, t': Tables, level: Level, b: nat, a: nat)
    requires level == IA32E_PDPT || level == IA32E_PD
    requires Ok(c, t, level, b) && Present(c.ops, t[level][b]) && MapsPage(level, t[level][b])
    requires PTRS_PER_TABLE * b + PTRS_PER_TABLE <= |t'[level + 1]|
    requires SplitEntries(c, t'[level + 1], level, b, t[level][b])
    requires Start(level, b) <= a < Start(level, b + 1)
    ensures Map(c, t', level + 1, a) == Map(c, t, level, a)
  {
    MapOfLeaf(c, t, level, b, a);
    ChildIndex(level, a);
    BlockOf(level, a, b);
    var k := Index(level + 1, a);
    BlockOf(level + 1, a, k);
    SplitLeafOk(c, level, b, t[level][b], k);
    VisiblyPresentIsPresent(c.ops, t'[level + 1][k]);
    MapOfLeaf(c, t', level + 1, k, a);
  }
}
