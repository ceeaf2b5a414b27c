/** What well-formed tables guarantee about the entries a walk can reach: the tables form a tree,
    absent entries point at the sanitized page, large pages are not executable where that is asked
    for, and there are no page tables without get_pt_page. */
module PageTree {
  import opened PageEntry
  import opened Paging
  import opened Wrappers
  import opened PagingSteps
  import opened PagingRanges

  /** Some walk from the PML4 table reads entry k of a level. */
  ghost predicate Reached(c: Config, t: Tables, level: Level, k: nat)
    decreases level
  {
    && k < |t[level]|
    && (level > 0 ==>
          && k / PTRS_PER_TABLE < |t[level - 1]|
          && Reached(c, t, level - 1, k / PTRS_PER_TABLE)
          && ReferencesTable(c, level - 1, t[level - 1][k / PTRS_PER_TABLE]))
  }

  lemma {:induction false} ReachedOk(c: Config, t: Tables, level: Level, k: nat)
    requires WellFormed(c, t) && Reached(c, t, level, k)
    ensures Ok(c, t, level, k)
    decreases level
  {
    if level > 0 {
      ReachedOk(c, t, level - 1, k / PTRS_PER_TABLE);
    }
  }

  /** A reached table entry references the slot of its own address and no other. */
  lemma ReachedReference(c: Config, t: Tables, level: Level, k: nat)
    requires WellFormed(c, t) && Reached(c, t, level, k) && ReferencesTable(c, level, t[level][k])
    ensures level < 3 && t[level][k] == TableEntry(c, level, k)
    ensures PTRS_PER_TABLE * k + PTRS_PER_TABLE <= |t[level + 1]|
  {
    ReachedOk(c, t, level, k);
  }

  /** The table arrays do not overlap in physical memory. */
  ghost predicate SlotsApart(c: Config) {
    && c.pdptBase + PAGE_SIZE * PagesFor(c.space, PML4E_SIZE) <= c.pdBase
    && c.pdBase + PAGE_SIZE * PagesFor(c.space, PDPTE_SIZE) <= c.ptBase
  }

  /** Every table has at most one parent. */
  lemma TablesFormATree(c: Config, t: Tables, level: Level, k: nat, level': Level, k': nat)
    requires WellFormed(c, t) && SlotsApart(c)
    requires Reached(c, t, level, k) && ReferencesTable(c, level, t[level][k])
    requires Reached(c, t, level', k') && ReferencesTable(c, level', t[level'][k'])
    requires t[level][k].paddr == t[level'][k'].paddr
    ensures level == level' && k == k'
  {
    ReachedReference(c, t, level, k);
    ReachedReference(c, t, level', k');
    SlotInArray(c, t, level, k);
    SlotInArray(c, t, level', k');
  }

  lemma SlotInArray(c: Config, t: Tables, level: Level, k: nat)
    requires Sized(c, t) && level < 3 && PTRS_PER_TABLE * k + PTRS_PER_TABLE <= |t[level + 1]|
    ensures level == 0 ==> k < PagesFor(c.space, PML4E_SIZE)
    ensures level == 1 ==> k < PagesFor(c.space, PDPTE_SIZE)
    ensures level == 2 ==> k < PagesFor(c.space, PDE_SIZE)
  {
  }

  /** A slot whose own entry references no table is referenced by nothing: clearing it, as the
      get_*_page callbacks do, wipes no table in use. */
  lemma FreeSlotUnreferenced(c: Config, t: Tables, level: Level, page: nat, level': Level, k': nat)
    requires WellFormed(c, t) && SlotsApart(c)
    requires level < 3 && page < |t[level]| && !ReferencesTable(c, level, t[level][page])
    requires PTRS_PER_TABLE * page + PTRS_PER_TABLE <= |t[level + 1]|
    requires Reached(c, t, level', k') && ReferencesTable(c, level', t[level'][k'])
    ensures t[level'][k'].paddr != Base(c, level + 1) + page * PAGE_SIZE
  {
    ReachedReference(c, t, level', k');
    SlotInArray(c, t, level', k');
    SlotInArray(c, t, level, page);
  }

  /** Tables in which one block has been edited and is well formed are well formed as a whole, as long as
      the tables above it are the same. */
  lemma {:induction false} EditedWellFormed(c: Config, t0: Tables, t: Tables, level: Level, k: nat)
    requires WellFormed(c, t0) && Reached(c, t0, level, k)
    requires SameOutside(t0, t, Start(level, k), Start(level, k + 1)) && Ok(c, t, level, k)
    requires forall l: Level :: l < level ==> t[l] == t0[l]
    ensures WellFormed(c, t)
    decreases level
  {
    hide Ok, WellFormed, SameOutside;
    if level == 0 {
      EditedRoot(c, t0, t, k);
    } else {
      EditedUp(c, t0, t, level, k);
      WiderBlock(t0, t, level, k);
      EditedWellFormed(c, t0, t, level - 1, k / PTRS_PER_TABLE);
    }
  }

  lemma EditedRoot(c: Config, t0: Tables, t: Tables, k: nat)
    requires WellFormed(c, t0) && Ok(c, t, IA32E_PML4, k)
    requires SameOutside(t0, t, Start(IA32E_PML4, k), Start(IA32E_PML4, k + 1))
    ensures WellFormed(c, t)
  {
    hide Ok;
    assert |t[0]| == |t0[0]| && |t[1]| == |t0[1]| && |t[2]| == |t0[2]| && |t[3]| == |t0[3]|;
    UpdatedStepOk(c, t0, t, IA32E_PML4, 0, PTRS_PER_TABLE, k);
  }

  lemma EditedUp(c: Config, t0: Tables, t: Tables, level: Level, k: nat)
    requires WellFormed(c, t0) && Reached(c, t0, level, k) && level > 0
    requires SameOutside(t0, t, Start(level, k), Start(level, k + 1)) && Ok(c, t, level, k)
    requires t[level - 1] == t0[level - 1]
    ensures Ok(c, t, level - 1, k / PTRS_PER_TABLE)
  {
    hide Ok, WellFormed;
    var p := k / PTRS_PER_TABLE;
    ReachedOk(c, t0, level - 1, p);
    ReferencedTable(c, t0, level - 1, p);
    UpdatedStepOk(c, t0, t, level, PTRS_PER_TABLE * p, PTRS_PER_TABLE * p + PTRS_PER_TABLE, k);
    ReferencingOk(c, t0, t, level - 1, p);
  }

  lemma WiderBlock(t: Tables, t': Tables, level: Level, k: nat)
    requires level > 0 && SameOutside(t, t', Start(level, k), Start(level, k + 1))
    ensures SameOutside(t, t', Start(level - 1, k / PTRS_PER_TABLE), Start(level - 1, k / PTRS_PER_TABLE + 1))
  {
    var p := k / PTRS_PER_TABLE;
    ChildBlocks(level - 1, p);
    StartMonotone(level, PTRS_PER_TABLE * p, k);
    StartMonotone(level, k + 1, PTRS_PER_TABLE * p + PTRS_PER_TABLE);
  }

  lemma ReferencingOk(c: Config, t: Tables, t': Tables, level: Level, p: nat)
    requires level < 3 && Ok(c, t, level, p) && ReferencesTable(c, level, t[level][p])
    requires t'[level] == t[level] && |t'[level + 1]| == |t[level + 1]| && TableOk(c, t', level + 1, p)
    ensures Ok(c, t', level, p)
  {
  }

  /** At every head of a loop, in the middle of an operation, all tables are well formed, so what this
      module says holds there too: in particular a getter wipes no table in use. */
  lemma MidwayWellFormed(c: Config, t0: Tables, t: Tables, level: Level, page: nat, v0: nat, v: nat, req: Request)
    requires WellFormed(c, t0) && level > 0
    requires Reached(c, t0, level - 1, page) && ReferencesTable(c, level - 1, t0[level - 1][page])
    requires Updated(c, t0, t, level, PTRS_PER_TABLE * page, PTRS_PER_TABLE * page + PTRS_PER_TABLE, v0, v, req)
    requires forall l: Level :: l < level ==> t[l] == t0[l]
    ensures WellFormed(c, t)
    ensures Reached(c, t, level - 1, page) && ReferencesTable(c, level - 1, t[level - 1][page])
  {
    ReachedOk(c, t0, level - 1, page);
    ChildBlocks(level - 1, page);
    ReferencingOk(c, t0, t, level - 1, page);
    EditedWellFormed(c, t0, t, level - 1, page);
    SameReached(c, t0, t, level - 1, page);
  }

  lemma {:induction false} SameReached(c: Config, t: Tables, t': Tables, level: Level, k: nat)
    requires Reached(c, t, level, k) && forall l: Level :: l <= level ==> t'[l] == t[l]
    ensures Reached(c, t', level, k)
    decreases level
  {
    if level > 0 {
      SameReached(c, t, t', level - 1, k / PTRS_PER_TABLE);
    }
  }

  /** Below the PML4 table an absent entry holds the sanitized page's address and nothing else, so
      testing the page-size bit before the present bits is sound. */
  lemma AbsentIsSanitized(c: Config, t: Tables, level: Level, k: nat)
    requires WellFormed(c, t) && Reached(c, t, level, k) && 0 < level
    ensures !Present(c.ops, t[level][k]) ==> t[level][k] == Entry(c.sanitized, {})
    ensures level < IA32E_PT && Large(t[level][k]) ==> Present(c.ops, t[level][k])
  {
    ReachedOk(c, t, level, k);
  }

  lemma LargePagesNotExecutable(c: Config, t: Tables, level: Level, k: nat)
    requires WellFormed(c, t) && c.noExecLarge
    requires Reached(c, t, level, k) && level < IA32E_PT
    requires Present(c.ops, t[level][k]) && MapsPage(level, t[level][k])
    ensures EPT_EXE !! t[level][k].prot
  {
    ReachedOk(c, t, level, k);
  }

  /** A large page that is changed in place stays large, and stays not executable exactly when the change
      does not set the execute bit: nothing in the engine clears it then. */
  lemma ExecutableByModification(c: Config, e: Entry, set_: Prot, clr: Prot)
    requires Large(e) && PAGE_PS !! clr - set_ && EPT_EXE !! e.prot
    ensures var e' := LocalResult(c, e, Modify(set_, clr));
            Large(e') && (EPT_EXE !! e'.prot <==> EPT_EXE !! set_)
  {
    var e' := LocalResult(c, e, Modify(set_, clr));
    assert PS_BIT in (e.prot - clr) + set_ by {
      assert PS_BIT in e.prot && (PS_BIT in clr ==> PS_BIT in set_);
    }
    assert 2 in e'.prot <==> 2 in set_;
  }

  /** A large page stays a page when it is changed in place exactly when its page-size bit is not
      cleared. Otherwise the entry references the mapped memory itself as a table. */
  lemma PageSizeCleared(c: Config, level: Level, e: Entry, set_: Prot, clr: Prot)
    requires level == IA32E_PDPT || level == IA32E_PD
    requires MapsPage(level, e) && Present(c.ops, LocalResult(c, e, Modify(set_, clr)))
    ensures var e' := LocalResult(c, e, Modify(set_, clr));
            && e'.paddr == e.paddr
            && (MapsPage(level, e') <==> PAGE_PS !! clr - set_)
            && (ReferencesTable(c, level, e') <==> PS_BIT in clr && PS_BIT !in set_)
  {
    var e' := LocalResult(c, e, Modify(set_, clr));
    assert PS_BIT in e'.prot <==> PS_BIT !in clr || PS_BIT in set_;
    assert PAGE_PS !! clr - set_ <==> PS_BIT !in clr - set_;
  }

  /** The hypervisor's own tables never have a page-table level. */
  lemma NoPageTables(c: Config, t: Tables, k: nat)
    requires WellFormed(c, t) && !c.ops.hasPtPage
    ensures !Reached(c, t, IA32E_PT, k)
  {
    if Reached(c, t, IA32E_PT, k) {
      ReachedOk(c, t, IA32E_PT, k);
      assert false;
    }
  }

  // ---- Leaves ----

  datatype Leaf = Leaf(level: Level, index: nat)

  ghost predicate IsLeaf(c: Config, t: Tables, leaf: Leaf) {
    && Reached(c, t, leaf.level, leaf.index)
    && Present(c.ops, t[leaf.level][leaf.index]) && MapsPage(leaf.level, t[leaf.level][leaf.index])
  }

  function First(leaf: Leaf): nat {
    Start(leaf.level, leaf.index)
  }

  predicate Covers(leaf: Leaf, a: nat) {
    First(leaf) <= a < Start(leaf.level, leaf.index + 1)
  }

  /** The reached entry of a level on the way to a deeper reached entry. */
  lemma {:induction false} Ancestor(c: Config, t: Tables, level: Level, k: nat, up: Level, a: nat)
    requires Reached(c, t, level, k) && up < level
    requires Start(level, k) <= a < Start(level, k + 1)
    ensures Reached(c, t, up, Index(up, a)) && ReferencesTable(c, up, t[up][Index(up, a)])
    decreases level
  {
    BlockOf(level, a, k);
    ChildIndex(level - 1, a);
    if up < level - 1 {
      BlockOf(level - 1, a, k / PTRS_PER_TABLE);
      Ancestor(c, t, level - 1, k / PTRS_PER_TABLE, up, a);
    }
  }

  /** At most one leaf covers an address. */
  lemma LeafUnique(c: Config, t: Tables, x: Leaf, y: Leaf, a: nat)
    requires IsLeaf(c, t, x) && IsLeaf(c, t, y) && Covers(x, a) && Covers(y, a)
    ensures x == y
  {
    BlockOf(x.level, a, x.index);
    BlockOf(y.level, a, y.index);
    if x.level < y.level {
      Ancestor(c, t, y.level, y.index, x.level, a);
      assert false;
    } else if y.level < x.level {
      Ancestor(c, t, x.level, x.index, y.level, a);
      assert false;
    }
  }

  /** The leaf that covers an address is where the address is translated. */
  lemma {:induction false} LeafTranslates(c: Config, t: Tables, leaf: Leaf, a: nat)
    requires WellFormed(c, t) && IsLeaf(c, t, leaf) && Covers(leaf, a) && a < ADDRESS_LIMIT
    ensures Translate(c, t, a)
         == Some(Mapping(t[leaf.level][leaf.index].paddr + (a - First(leaf)),
                         Visible(c.ops, t[leaf.level][leaf.index].prot)))
  {
    TranslateIsMap(c, t, a);
    MapOfLeaf(c, t, leaf.level, leaf.index, a);
    if leaf.level > 0 {
      MapFromAbove(c, t, leaf.level, leaf.index, a);
    }
  }

  lemma {:induction false} MapFromAbove(c: Config, t: Tables, level: Level, k: nat, a: nat)
    requires Reached(c, t, level, k) && Start(level, k) <= a < Start(level, k + 1)
    ensures Map(c, t, IA32E_PML4, a) == Map(c, t, level, a)
    decreases level
  {
    if level > 0 {
      BlockOf(level, a, k);
      ChildIndex(level - 1, a);
      BlockOf(level - 1, a, k / PTRS_PER_TABLE);
      MapFromAbove(c, t, level - 1, k / PTRS_PER_TABLE, a);
    }
  }
}
